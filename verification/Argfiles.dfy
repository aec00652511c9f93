/**
 Argfile expansion: `expand_argfiles_with_context` in app/bz_client_ctx/src/argfiles.rs and the builder of
 app/bz_common/src/argv.rs. The file system is a map from the path as written to the lines of the file.
 */
module Argfiles {
  import opened Collections
  import Chains

  type Files = map<string, seq<string>>

  /** Where an argument was written: on the command line, or in a file included from somewhere. */
  datatype Source = Inline | Flagfile(path: string, parent: Source)

  datatype Argument = Argument(text: string, source: Source)

  predicate HasDoubleSlash(s: string) {
    |s| >= 2 && ((s[0] == '/' && s[1] == '/') || HasDoubleSlash(s[1..]))
  }

  /** `is_at_argfile_arg`. */
  predicate IsAtArgfile(arg: string) {
    |arg| > 0 && arg[0] == '@' && !(|arg| > 1 && arg[1] == '@') && !HasDoubleSlash(arg[1..])
  }

  predicate IsComment(arg: string) {
    "--#" <= arg
  }

  predicate IsPlain(arg: string) {
    arg != "--" && arg != "--flagfile" && !IsAtArgfile(arg) && !IsComment(arg)
  }

  function NonEmpty(lines: seq<string>): seq<string> {
    if lines == [] then []
    else NonEmpty(lines[..|lines| - 1]) + if lines[|lines| - 1] == "" then [] else [lines[|lines| - 1]]
  }

  // ----- The include tree -----

  /** How the next argument is read, and how many arguments that takes. */
  datatype Reading = Verbatim | Plain | Comment | Include(path: string, width: nat) | MissingPath

  function Read(args: seq<string>): Reading
    requires args != []
  {
    var arg := args[0];
    if arg == "--" then Verbatim
    else if arg == "--flagfile" then if |args| == 1 then MissingPath else Include(args[1], 2)
    else if IsAtArgfile(arg) then if |arg| == 1 then MissingPath else Include(arg[1..], 1)
    else if IsComment(arg) then Comment
    else Plain
  }

  datatype Node = Arg(text: string) | File(path: string, contents: seq<Node>)

  function Args(texts: seq<string>): (r: seq<Node>)
    ensures |r| == |texts| && forall i :: 0 <= i < |r| ==> r[i] == Arg(texts[i])
  {
    seq(|texts|, i requires 0 <= i < |texts| => Arg(texts[i]))
  }

  /** What expansion comes to: a tree, an error, or more levels of included files than were allowed. */
  datatype Outcome = Deep | Failed | Tree(nodes: seq<Node>)

  /** A leading part and what follows it, unless that is no tree. */
  function Join(first: seq<Node>, rest: Outcome): Outcome {
    if rest.Tree? then Tree(first + rest.nodes) else rest
  }

  /** The tree of arguments and included files; an error if a path or a file is missing. */
  function Eval(files: Files, args: seq<string>, depth: nat): Outcome
    decreases depth, |args|
  {
    if args == [] then Tree([])
    else
      match Read(args)
      case Verbatim => Tree(Args(args))
      case Plain => Join([Arg(args[0])], Eval(files, args[1..], depth))
      case Comment => Eval(files, args[1..], depth)
      case MissingPath => Failed
      case Include(path, width) =>
        if path !in files then Failed
        else if depth == 0 then Deep
        else
          var contents := Eval(files, NonEmpty(files[path]), depth - 1);
          if contents.Tree? then Join([File(path, contents.nodes)], Eval(files, args[width..], depth)) else contents
  }

  /** Allowing more levels changes nothing once there are enough. */
  lemma {:induction false} EvalIsStable(files: Files, args: seq<string>, depth: nat, more: nat)
    requires depth <= more && !Eval(files, args, depth).Deep?
    ensures Eval(files, args, more) == Eval(files, args, depth)
    decreases depth, |args|
  {
    if args != [] {
      match Read(args)
      case Plain => EvalIsStable(files, args[1..], depth, more);
      case Comment => EvalIsStable(files, args[1..], depth, more);
      case Include(path, width) =>
        if path in files {
          EvalIsStable(files, NonEmpty(files[path]), depth - 1, more - 1);
          if Eval(files, NonEmpty(files[path]), depth - 1).Tree? { EvalIsStable(files, args[width..], depth, more); }
        }
      case _ =>
    }
  }

  ghost predicate Ends(files: Files, args: seq<string>) {
    exists depth: nat :: !Eval(files, args, depth).Deep?
  }

  function FlattenNode(node: Node, source: Source): seq<Argument> {
    match node
    case Arg(text) => [Argument(text, source)]
    case File(path, contents) => Flatten(contents, Flagfile(path, source))
  }

  /** The arguments of a tree, left to right, each with the chain of files it came through. */
  function Flatten(nodes: seq<Node>, source: Source): seq<Argument> {
    if nodes == [] then [] else FlattenNode(nodes[0], source) + Flatten(nodes[1..], source)
  }

  lemma {:induction false} FlattenArgs(texts: seq<string>, source: Source)
    ensures Flatten(Args(texts), source) == seq(|texts|, i requires 0 <= i < |texts| => Argument(texts[i], source))
  {
    if texts != [] {
      assert Args(texts)[1..] == Args(texts[1..]);
      FlattenArgs(texts[1..], source);
    }
  }

  // ----- Expanding an expansion -----

  /** Nothing before the first `--` is special. */
  predicate Settled(args: seq<string>) {
    args == [] || args[0] == "--" || (IsPlain(args[0]) && Settled(args[1..]))
  }

  function Texts(arguments: seq<Argument>): (r: seq<string>)
    ensures |r| == |arguments| && forall i :: 0 <= i < |r| ==> r[i] == arguments[i].text
  {
    seq(|arguments|, i requires 0 <= i < |arguments| => arguments[i].text)
  }

  lemma {:induction false} SettledConcat(a: seq<string>, b: seq<string>)
    requires Settled(a) && Settled(b)
    ensures Settled(a + b)
  {
    if a == [] {
      assert a + b == b;
    } else if a[0] != "--" {
      assert (a + b)[1..] == a[1..] + b;
      SettledConcat(a[1..], b);
    }
  }

  lemma {:induction false} TextsConcat(a: seq<Argument>, b: seq<Argument>)
    ensures Texts(a + b) == Texts(a) + Texts(b)
  {
  }

  lemma {:induction false} JoinIsSettled(first: Node, rest: seq<Node>, source: Source)
    requires Settled(Texts(FlattenNode(first, source))) && Settled(Texts(Flatten(rest, source)))
    ensures Settled(Texts(Flatten([first] + rest, source)))
  {
    assert ([first] + rest)[0] == first && ([first] + rest)[1..] == rest;
    hide Settled, FlattenNode, Texts;
    TextsConcat(FlattenNode(first, source), Flatten(rest, source));
    SettledConcat(Texts(FlattenNode(first, source)), Texts(Flatten(rest, source)));
  }

  /** In every expansion, an unexpanded special argument comes after a `--`. */
  lemma {:induction false} ExpansionIsSettled(files: Files, args: seq<string>, depth: nat, source: Source)
    requires Eval(files, args, depth).Tree?
    ensures Settled(Texts(Flatten(Eval(files, args, depth).nodes, source)))
    decreases depth, |args|
  {
    if args != [] {
      match Read(args)
      case Verbatim =>
        FlattenArgs(args, source);
      case Plain =>
        ExpansionIsSettled(files, args[1..], depth, source);
        JoinIsSettled(Arg(args[0]), Eval(files, args[1..], depth).nodes, source);
      case Comment =>
        ExpansionIsSettled(files, args[1..], depth, source);
      case Include(path, width) =>
        var contents := Eval(files, NonEmpty(files[path]), depth - 1).nodes;
        ExpansionIsSettled(files, NonEmpty(files[path]), depth - 1, Flagfile(path, source));
        ExpansionIsSettled(files, args[width..], depth, source);
        JoinIsSettled(File(path, contents), Eval(files, args[width..], depth).nodes, source);
    }
  }

  /** Settled arguments are their own expansion, whatever files there are, and no file is opened for it. */
  lemma {:induction false} SettledIsFixed(files: Files, args: seq<string>)
    requires Settled(args)
    ensures Eval(files, args, 0) == Tree(Args(args))
  {
    if args != [] && args[0] != "--" {
      SettledIsFixed(files, args[1..]);
      assert Args(args) == [Arg(args[0])] + Args(args[1..]);
    }
  }

  /** Expanding the result of an expansion again returns it unchanged and opens no file. */
  lemma {:induction false} ExpansionIsIdempotent(files: Files, args: seq<string>, depth: nat, others: Files)
    requires Eval(files, args, depth).Tree?
    ensures var out := Texts(Flatten(Eval(files, args, depth).nodes, Inline));
            Eval(others, out, 0) == Tree(Args(out)) && Texts(Flatten(Args(out), Inline)) == out
  {
    ExpansionIsSettled(files, args, depth, Inline);
    var out := Texts(Flatten(Eval(files, args, depth).nodes, Inline));
    SettledIsFixed(others, out);
    FlattenArgs(out, Inline);
  }

  // ----- The expansion -----

  class ExpandedArgvBuilder {
    var current: Source
    var args: seq<Argument>

    constructor ()
      ensures current == Inline && args == []
    {
      current, args := Inline, [];
    }

    method Push(text: string)
      modifies this`args
      ensures args == old(args) + [Argument(text, current)]
    {
      args := args + [Argument(text, current)];
    }

    method PushAll(texts: seq<string>)
      modifies this`args
      ensures args == old(args) + Flatten(Args(texts), current)
    {
      FlattenArgs(texts, current);
      for i := 0 to |texts|
        invariant args == old(args) + Flatten(Args(texts), current)[..i]
      {
        Push(texts[i]);
      }
    }
  }

  method ReadLines(raw: seq<string>) returns (lines: seq<string>)
    ensures lines == NonEmpty(raw)
  {
    lines := [];
    for i := 0 to |raw|
      invariant lines == NonEmpty(raw[..i])
    {
      assert raw[..i + 1][..i] == raw[..i];
      if raw[i] != "" {
        lines := lines + [raw[i]];
      }
    }
    assert raw[..|raw|] == raw;
  }

  /** What an outcome flattens to; `None` if it is an error. */
  function Expansion(outcome: Outcome, source: Source): Option<seq<Argument>> {
    if outcome.Tree? then Some(Flatten(outcome.nodes, source)) else None
  }

  function After(first: seq<Argument>, rest: Option<seq<Argument>>): Option<seq<Argument>> {
    if rest.None? then None else Some(first + rest.value)
  }

  lemma {:induction false} AfterAfter(a: seq<Argument>, b: seq<Argument>, rest: Option<seq<Argument>>)
    ensures After(a, After(b, rest)) == After(a + b, rest)
  {
    if rest.Some? { assert a + (b + rest.value) == a + b + rest.value; }
  }

  lemma {:induction false} FlattenJoin(node: Node, rest: Outcome, source: Source)
    ensures Expansion(Join([node], rest), source) == After(FlattenNode(node, source), Expansion(rest, source))
  {
    if rest.Tree? { assert ([node] + rest.nodes)[1..] == rest.nodes; }
  }

  /** How the expansion of the arguments from `i` on depends on what is read there. */
  lemma {:induction false} ExpansionStep(files: Files, args: seq<string>, i: nat, depth: nat, source: Source)
    requires i < |args| && !Eval(files, args[i..], depth).Deep?
    ensures var e := Expansion(Eval(files, args[i..], depth), source);
            match Read(args[i..])
            case Verbatim => e == Some(Flatten(Args(args[i..]), source))
            case MissingPath => e == None
            case Comment =>
              !Eval(files, args[i + 1..], depth).Deep? && e == Expansion(Eval(files, args[i + 1..], depth), source)
            case Plain =>
              && !Eval(files, args[i + 1..], depth).Deep?
              && e == After([Argument(args[i], source)], Expansion(Eval(files, args[i + 1..], depth), source))
            case Include(path, width) =>
              && i + width <= |args| && width > 0
              && (path !in files ==> e == None)
              && (path in files ==>
                    && depth > 0
                    && var contents := Eval(files, NonEmpty(files[path]), depth - 1);
                    && !contents.Deep? && (contents.Failed? ==> e == None)
                    && (contents.Tree? ==>
                          && !Eval(files, args[i + width..], depth).Deep?
                          && e == After(Flatten(contents.nodes, Flagfile(path, source)),
                                        Expansion(Eval(files, args[i + width..], depth), source))))
  {
    assert args[i..][1..] == args[i + 1..];
    match Read(args[i..])
    case Plain =>
      FlattenJoin(Arg(args[i]), Eval(files, args[i + 1..], depth), source);
    case Include(path, width) =>
      assert args[i..][width..] == args[i + width..];
      if path in files && Eval(files, NonEmpty(files[path]), depth - 1).Tree? {
        var contents := Eval(files, NonEmpty(files[path]), depth - 1).nodes;
        FlattenJoin(File(path, contents), Eval(files, args[i + width..], depth), source);
      }
    case _ =>
  }

  /** With `now` built from `start`, the arguments from `i` on complete the expansion of all of them. */
  ghost predicate Reached(files: Files, args: seq<string>, depth: nat, source: Source, start: seq<Argument>, i: nat,
                          now: seq<Argument>)
  {
    && i <= |args| && !Eval(files, args[i..], depth).Deep?
    && After(start, Expansion(Eval(files, args, depth), source)) ==
      After(now, Expansion(Eval(files, args[i..], depth), source))
  }

  lemma {:induction false} ReachedEnds(files: Files, args: seq<string>, depth: nat, source: Source,
                                       start: seq<Argument>, now: seq<Argument>)
    requires !Eval(files, args, depth).Deep?
    ensures Reached(files, args, depth, source, start, 0, start)
    ensures Reached(files, args, depth, source, start, |args|, now) ==>
              After(start, Expansion(Eval(files, args, depth), source)) == Some(now)
  {
    assert args[0..] == args && args[|args|..] == [] && now + [] == now;
  }

  lemma {:induction false} ReachedStep(files: Files, args: seq<string>, depth: nat, source: Source,
                                       start: seq<Argument>, i: nat, now: seq<Argument>)
    requires Reached(files, args, depth, source, start, i, now) && i < |args|
    ensures var whole := After(start, Expansion(Eval(files, args, depth), source));
            match Read(args[i..])
            case Verbatim => whole == Some(now + Flatten(Args(args[i..]), source))
            case MissingPath => whole == None
            case Comment => Reached(files, args, depth, source, start, i + 1, now)
            case Plain => Reached(files, args, depth, source, start, i + 1, now + [Argument(args[i], source)])
            case Include(path, width) =>
              && width > 0 && i + width <= |args| && (path !in files ==> whole == None)
              && (path in files ==>
                    && depth > 0
                    && var contents := Eval(files, NonEmpty(files[path]), depth - 1);
                    && !contents.Deep? && (contents.Failed? ==> whole == None)
                    && (contents.Tree? ==>
                          Reached(files, args, depth, source, start, i + width,
                                  now + Flatten(contents.nodes, Flagfile(path, source)))))
  {
    ExpansionStep(files, args, i, depth, source);
    hide Eval, Flatten, Expansion;
    match Read(args[i..])
    case Plain =>
      AfterAfter(now, [Argument(args[i], source)], Expansion(Eval(files, args[i + 1..], depth), source));
    case Include(path, width) =>
      if path in files && Eval(files, NonEmpty(files[path]), depth - 1).Tree? {
        var added := Flatten(Eval(files, NonEmpty(files[path]), depth - 1).nodes, Flagfile(path, source));
        AfterAfter(now, added, Expansion(Eval(files, args[i + width..], depth), source));
      }
    case _ =>
  }

  /** `expand_argfiles_with_context`. */
  method Expand(builder: ExpandedArgvBuilder, files: Files, args: seq<string>, ghost depth: nat) returns (ok: bool)
    requires !Eval(files, args, depth).Deep?
    modifies builder
    ensures builder.current == old(builder.current)
    ensures ok <==> Eval(files, args, depth).Tree?
    ensures ok ==> builder.args == old(builder.args) + Flatten(Eval(files, args, depth).nodes, builder.current)
    decreases depth, 1
  {
    hide Eval, Flatten, Read, Reached;
    var i := 0;
    ghost var source, start := builder.current, builder.args;
    ReachedEnds(files, args, depth, source, start, start);
    while i < |args|
      invariant i <= |args| && builder.current == source
      invariant Reached(files, args, depth, source, start, i, builder.args)
    {
      ReachedStep(files, args, depth, source, start, i, builder.args);
      match Read(args[i..]) {
        case Verbatim =>
          builder.PushAll(args[i..]);
          return true;
        case Plain =>
          builder.Push(args[i]);
          i := i + 1;
        case Comment =>
          i := i + 1;
        case MissingPath =>
          return false;
        case Include(path, width) =>
          ok := ExpandFile(builder, files, path, depth);
          if !ok {
            return;
          }
          i := i + width;
      }
    }
    ReachedEnds(files, args, depth, source, start, builder.args);
    return true;
  }

  /** `resolve_and_expand_argfile`. */
  method ExpandFile(builder: ExpandedArgvBuilder, files: Files, path: string, ghost depth: nat) returns (ok: bool)
    requires path in files ==> depth > 0 && !Eval(files, NonEmpty(files[path]), depth - 1).Deep?
    modifies builder
    ensures builder.current == old(builder.current)
    ensures ok <==> path in files && Eval(files, NonEmpty(files[path]), depth - 1).Tree?
    ensures ok ==> builder.args == old(builder.args) +
                     Flatten(Eval(files, NonEmpty(files[path]), depth - 1).nodes, Flagfile(path, builder.current))
    decreases depth, 0
  {
    if path !in files {
      return false;
    }
    var lines := ReadLines(files[path]);
    hide Eval;
    builder.current := Flagfile(path, builder.current);
    ok := Expand(builder, files, lines, depth - 1);
    builder.current := builder.current.parent;
  }

  // ----- When expansion ends -----

  ghost predicate Succeeds(files: Files, path: string)
    requires path in files
  {
    exists depth: nat :: Eval(files, NonEmpty(files[path]), depth).Tree?
  }

  /** The files that are opened for the arguments themselves: up to the first that is missing or does not succeed. */
  ghost function Opened(files: Files, args: seq<string>): (r: set<string>)
    ensures r <= files.Keys
  {
    if args == [] then {}
    else
      match Read(args)
      case Verbatim => {}
      case Plain => Opened(files, args[1..])
      case Comment => Opened(files, args[1..])
      case MissingPath => {}
      case Include(path, width) =>
        if path !in files then {}
        else {path} + if Succeeds(files, path) then Opened(files, args[width..]) else {}
  }

  lemma {:induction false} SucceedsHere(files: Files, path: string, depth: nat)
    requires path in files && !Eval(files, NonEmpty(files[path]), depth).Deep?
    ensures Succeeds(files, path) <==> Eval(files, NonEmpty(files[path]), depth).Tree?
  {
    if Succeeds(files, path) {
      var enough: nat :| Eval(files, NonEmpty(files[path]), enough).Tree?;
      EvalIsStable(files, NonEmpty(files[path]), depth, depth + enough);
      EvalIsStable(files, NonEmpty(files[path]), enough, depth + enough);
    }
  }

  /** What ends within some levels opens only files that end within one level less. */
  lemma {:induction false} OpenedEnds(files: Files, args: seq<string>, depth: nat, q: string)
    requires !Eval(files, args, depth).Deep? && q in Opened(files, args)
    ensures depth > 0 && !Eval(files, NonEmpty(files[q]), depth - 1).Deep?
    decreases |args|
  {
    match Read(args)
    case Plain => OpenedEnds(files, args[1..], depth, q);
    case Comment => OpenedEnds(files, args[1..], depth, q);
    case Include(path, width) =>
      if q != path {
        SucceedsHere(files, path, depth - 1);
        OpenedEnds(files, args[width..], depth, q);
      }
  }

  /** If all files that are opened end, so does the expansion. */
  lemma {:induction false} EndsIfOpenedEnd(files: Files, args: seq<string>) returns (depth: nat)
    requires forall q :: q in Opened(files, args) ==> Ends(files, NonEmpty(files[q]))
    ensures !Eval(files, args, depth).Deep?
    decreases |args|
  {
    if args == [] {
      depth := 0;
    } else {
      match Read(args)
      case Plain => depth := EndsIfOpenedEnd(files, args[1..]);
      case Comment => depth := EndsIfOpenedEnd(files, args[1..]);
      case Include(path, width) =>
        if path !in files {
          depth := 0;
        } else {
          var inner: nat :| !Eval(files, NonEmpty(files[path]), inner).Deep?;
          SucceedsHere(files, path, inner);
          if Succeeds(files, path) {
            var rest := EndsIfOpenedEnd(files, args[width..]);
            depth := 1 + inner + rest;
            EvalIsStable(files, args[width..], rest, depth);
          } else {
            depth := 1 + inner;
          }
          EvalIsStable(files, NonEmpty(files[path]), inner, depth - 1);
        }
      case _ => depth := 0;
    }
  }

  /** One file opens another. */
  ghost function Opens(files: Files): set<(string, string)> {
    set p, q | p in files.Keys && q in files.Keys && q in Opened(files, NonEmpty(files[p])) :: (p, q)
  }

  /** The arguments open a file from which a chain of opened files comes to the same one twice. */
  ghost predicate Loops(files: Files, args: seq<string>) {
    exists p :: p != [] && p[0] in Opened(files, args) && Chains.Chain(Opens(files), p) && !NoDuplicates(p)
  }

  /** Along a chain of opened files fewer and fewer levels are enough. */
  lemma {:induction false} Descends(files: Files, p: seq<string>, i: nat, j: nat, depth: nat)
    requires Chains.Chain(Opens(files), p) && i <= j < |p| && p[i] in files
             && !Eval(files, NonEmpty(files[p[i]]), depth).Deep?
    ensures p[j] in files && j - i <= depth && !Eval(files, NonEmpty(files[p[j]]), depth - (j - i)).Deep?
    decreases j
  {
    if i < j {
      Descends(files, p, i, j - 1, depth);
      assert (p[j - 1], p[j]) in Opens(files);
      OpenedEnds(files, NonEmpty(files[p[j - 1]]), depth - (j - 1 - i), p[j]);
    }
  }

  lemma {:induction false} NoEndlessDescent(files: Files, p: seq<string>, i: nat, j: nat, depth: nat)
    requires Chains.Chain(Opens(files), p) && i < j < |p| && p[i] == p[j] && p[i] in files
    ensures Eval(files, NonEmpty(files[p[i]]), depth).Deep?
    decreases depth
  {
    if !Eval(files, NonEmpty(files[p[i]]), depth).Deep? {
      Descends(files, p, i, j, depth);
      NoEndlessDescent(files, p, i, j, depth - (j - i));
    }
  }

  lemma {:induction false} LoopNeverEnds(files: Files, args: seq<string>)
    requires Loops(files, args)
    ensures !Ends(files, args)
  {
    hide Eval, Opened, Opens, NonEmpty;
    var p :| p != [] && p[0] in Opened(files, args) && Chains.Chain(Opens(files), p) && !NoDuplicates(p);
    var i, j :| 0 <= i < j < |p| && p[i] == p[j];
    forall depth: nat ensures Eval(files, args, depth).Deep? {
      if !Eval(files, args, depth).Deep? {
        OpenedEnds(files, args, depth, p[0]);
        Descends(files, p, 0, i, depth - 1);
        NoEndlessDescent(files, p, i, j, depth - 1 - i);
      }
    }
  }

  lemma {:induction false} OpensEndless(files: Files, args: seq<string>) returns (q: string)
    requires !Ends(files, args)
    ensures q in Opened(files, args) && !Ends(files, NonEmpty(files[q]))
  {
    if forall f :: f in Opened(files, args) ==> Ends(files, NonEmpty(files[f])) {
      var depth := EndsIfOpenedEnd(files, args);
      assert false;
    }
    q :| q in Opened(files, args) && !Ends(files, NonEmpty(files[q]));
  }

  lemma {:induction false} EndlessLoops(files: Files, args: seq<string>)
    requires !Ends(files, args)
    ensures Loops(files, args)
  {
    var endless := set f | f in files.Keys && !Ends(files, NonEmpty(files[f]));
    var first := OpensEndless(files, args);
    forall f | f in endless ensures Chains.HasNext(Opens(files), endless, f) {
      var next := OpensEndless(files, NonEmpty(files[f]));
      assert (f, next) in Opens(files) && next in endless;
    }
    var p := Chains.RepeatFrom(Opens(files), endless, first);
  }

  /** Expansion ends exactly if it does not come to open a file from within itself. */
  lemma {:induction false} EndsIff(files: Files, args: seq<string>)
    ensures Ends(files, args) <==> !Loops(files, args)
  {
    if Ends(files, args) && Loops(files, args) {
      LoopNeverEnds(files, args);
    } else if !Ends(files, args) {
      EndlessLoops(files, args);
    }
  }

  /** `expand_argv` without the override, wherever the source ends. */
  method ExpandArgv(files: Files, args: seq<string>) returns (r: Option<seq<Argument>>)
    requires !Loops(files, args)
    ensures exists depth: nat :: !Eval(files, args, depth).Deep?
    ensures forall depth: nat :: !Eval(files, args, depth).Deep? ==> r == Expansion(Eval(files, args, depth), Inline)
  {
    hide Eval, Loops;
    EndsIff(files, args);
    ghost var depth: nat :| !Eval(files, args, depth).Deep?;
    var builder := new ExpandedArgvBuilder();
    var ok := Expand(builder, files, args, depth);
    r := if ok then Some(builder.args) else None;
    ghost var expansion := Expansion(Eval(files, args, depth), Inline);
    assert ok ==> [] + expansion.value == expansion.value;
    forall more: nat | !Eval(files, args, more).Deep? ensures Eval(files, args, more) == Eval(files, args, depth) {
      EvalIsStable(files, args, more, more + depth);
      EvalIsStable(files, args, depth, more + depth);
    }
  }

  /** A missing file before a loop is an error, not a loop. */
  lemma {:induction false} MissingComesFirst(files: Files, path: string, rest: seq<string>)
    requires path != "" && path !in files && IsAtArgfile("@" + path)
    ensures !Loops(files, ["@" + path] + rest) && Eval(files, ["@" + path] + rest, 0) == Failed
  {
    var args := ["@" + path] + rest;
    assert args[0][1..] == path;
    EndsIff(files, args);
  }
}
