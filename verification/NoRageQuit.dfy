/**
 The linter against panics and abnormal exits: a visitor driven by ast.Inspect, with a node stack and a flag,
 against a specification over the syntax tree. A Go run-time panic of the linter itself is an outcome.
 */
module NoRageQuit {
  import opened Model

  /** `pkg` is the import path if the type checker resolves the identifier to an imported package. */
  datatype Node =
    | Ident(pos: nat, name: string, pkg: Option<string>)
    | Selector(x: Node, sel: Node)
    | Call(fun: Node, args: seq<Node>)
    | FuncDecl(pos: nat, name: string, hasRecv: bool, parts: seq<Node>)
    | Other(pos: nat, parts: seq<Node>)

  datatype File = File(pkgName: string, parts: seq<Node>)

  datatype Issue = Issue(pos: nat, message: string)

  const FATAL := "log.Fatal"
  const FATALF := "log.Fatalf"
  const EXIT := "os.Exit"
  const OUTSIDE_MAIN := " should not be called outside main function"
  const NO_PANIC := "panic should not be used"

  function Pos(n: Node): nat {
    match n
    case Ident(pos, _, _) => pos
    case Selector(x, _) => Pos(x)
    case Call(fun, _) => Pos(fun)
    case FuncDecl(pos, _, _, _) => pos
    case Other(pos, _) => pos
  }

  function SelName(sel: Node): string {
    if sel.Ident? then sel.name else ""
  }

  function Qualifier(i: Node): string
    requires i.Ident?
  {
    if i.pkg.Some? then i.pkg.value else i.name
  }

  /** getResolvedSelectorName; None is the failing type assertion on a call link that is no selector call. */
  function Resolve(s: Node): Option<string>
    requires s.Selector?
  {
    match s.x
    case Ident(_, _, _) => Some(Qualifier(s.x) + "." + SelName(s.sel))
    case Selector(_, _) => Extend(Resolve(s.x), s.sel)
    case Call(fun, _) => if fun.Selector? then Extend(Resolve(fun), s.sel) else None
    case _ => Some("")
  }

  function Extend(prefix: Option<string>, sel: Node): Option<string> {
    if prefix.Some? then Some(prefix.value + "." + SelName(sel)) else None
  }

  // ---- the specification ----

  /** A chain of selectors with a call in it whose callee is not a selector, as in f().Close. */
  predicate BadChain(s: Node)
    requires s.Selector?
  {
    match s.x
    case Selector(_, _) => BadChain(s.x)
    case Call(fun, _) => if fun.Selector? then BadChain(fun) else true
    case _ => false
  }

  /** os.Exit, log.Fatal or log.Fatalf, by import path where the qualifier is a package, else by its own name. */
  predicate IsExit(s: Node)
    requires s.Selector?
  {
    s.x.Ident? && (Qualifier(s.x), SelName(s.sel)) in {("os", "Exit"), ("log", "Fatal"), ("log", "Fatalf")}
  }

  function OwnIssues(n: Node, exempt: bool): seq<Issue> {
    if !n.Call? then []
    else match n.fun
      case Selector(x, sel) =>
        if !exempt && IsExit(n.fun) then [Issue(Pos(x), Qualifier(x) + "." + SelName(sel) + OUTSIDE_MAIN)] else []
      case Ident(pos, name, _) => if name == "panic" then [Issue(pos, NO_PANIC)] else []
      case _ => []
  }

  predicate OwnCrash(n: Node, exempt: bool) {
    n.Call? && n.fun.Selector? && !exempt && BadChain(n.fun)
  }

  /** What is counted as an issue of a single node, inside the main function or not. */
  type Judge = (Node, bool) -> seq<Issue>

  /** The issues of a node and everything under it, in source order; `exempt` inside the main function. */
  function RageQuits(n: Node, exempt: bool, own: Judge := OwnIssues): seq<Issue>
    decreases n, 1
  {
    own(n, exempt) + IssuesUnder(n, exempt, own)
  }

  function IssuesUnder(n: Node, exempt: bool, own: Judge := OwnIssues): seq<Issue>
    decreases n, 0
  {
    match n
    case Ident(_, _, _) => []
    case Selector(x, sel) => RageQuits(x, exempt, own) + RageQuits(sel, exempt, own)
    case Call(fun, args) => RageQuits(fun, exempt, own) + AllRageQuits(args, exempt, own)
    case FuncDecl(_, _, _, parts) => AllRageQuits(parts, exempt, own)
    case Other(_, parts) => AllRageQuits(parts, exempt, own)
  }

  function AllRageQuits(ns: seq<Node>, exempt: bool, own: Judge := OwnIssues): seq<Issue>
    decreases ns, 0
  {
    if ns == [] then [] else RageQuits(ns[0], exempt, own) + AllRageQuits(ns[1..], exempt, own)
  }

  predicate Crashes(n: Node, exempt: bool)
    decreases n, 1
  {
    OwnCrash(n, exempt) || CrashUnder(n, exempt)
  }

  predicate CrashUnder(n: Node, exempt: bool)
    decreases n, 0
  {
    match n
    case Ident(_, _, _) => false
    case Selector(x, sel) => Crashes(x, exempt) || Crashes(sel, exempt)
    case Call(fun, args) => Crashes(fun, exempt) || SomeCrash(args, exempt)
    case FuncDecl(_, _, _, parts) => SomeCrash(parts, exempt)
    case Other(_, parts) => SomeCrash(parts, exempt)
  }

  predicate SomeCrash(ns: seq<Node>, exempt: bool)
    decreases ns, 0
  {
    ns != [] && (Crashes(ns[0], exempt) || SomeCrash(ns[1..], exempt))
  }

  predicate IsMainFunc(n: Node) {
    n.FuncDecl? && n.name == "main" && !n.hasRecv
  }

  /** Only a top-level receiver-less main of package main is exempt, with everything inside it. */
  function PartsIssues(ns: seq<Node>, mainPackage: bool, own: Judge := OwnIssues): seq<Issue> {
    if ns == [] then []
    else RageQuits(ns[0], mainPackage && IsMainFunc(ns[0]), own) + PartsIssues(ns[1..], mainPackage, own)
  }

  predicate PartsCrash(ns: seq<Node>, mainPackage: bool) {
    ns != [] && (Crashes(ns[0], mainPackage && IsMainFunc(ns[0])) || PartsCrash(ns[1..], mainPackage))
  }

  function FilesIssues(fs: seq<File>, own: Judge := OwnIssues): seq<Issue> {
    if fs == [] then []
    else
      var last := fs[|fs| - 1];
      FilesIssues(fs[..|fs| - 1], own) + PartsIssues(last.parts, last.pkgName == "main", own)
  }

  // ---- resolved names against the specification ----

  lemma {:induction false} ResolveFailsIffBadChain(s: Node)
    requires s.Selector?
    ensures Resolve(s) == None <==> BadChain(s)
  {
    match s.x
    case Selector(_, _) => ResolveFailsIffBadChain(s.x);
    case Call(fun, _) =>
      if fun.Selector? {
        ResolveFailsIffBadChain(fun);
      }
    case _ =>
  }

  lemma DottedAt(a: string, b: string, k: nat)
    requires k < |a + "." + b|
    ensures (a + "." + b)[k] == '.' ==> k == |a| || '.' in a || '.' in b
  {
    assert (a + "." + b)[k] == if k < |a| then a[k] else if k == |a| then '.' else b[k - |a| - 1];
  }

  /** A text with one dot can be joined at a dot in one way only. */
  lemma OneDot(q: string, s: string, a: string, b: string)
    requires '.' !in a && '.' !in b
    ensures q + "." + s == a + "." + b <==> q == a && s == b
  {
    var l, r := q + "." + s, a + "." + b;
    if l == r {
      assert l[|q|] == '.';
      DottedAt(a, b, |q|);
      assert l[..|q|] == q && r[..|a|] == a && l[|q| + 1..] == s && r[|a| + 1..] == b;
    }
  }

  lemma {:induction false} DottedOrEmpty(s: Node)
    requires s.Selector? && Resolve(s).Some?
    ensures Resolve(s).value == "" || '.' in Resolve(s).value
  {
    match s.x
    case Ident(_, _, _) => assert (Qualifier(s.x) + "." + SelName(s.sel))[|Qualifier(s.x)|] == '.';
    case Selector(_, _) => assert (Resolve(s.x).value + "." + SelName(s.sel))[|Resolve(s.x).value|] == '.';
    case Call(fun, _) => assert (Resolve(fun).value + "." + SelName(s.sel))[|Resolve(fun).value|] == '.';
    case _ =>
  }

  /** Comparing the resolved text recognises exactly the three functions, however long the chain. */
  lemma ResolvedNameIsExit(s: Node)
    requires s.Selector? && Resolve(s).Some?
    ensures Resolve(s).value in {EXIT, FATAL, FATALF} <==> IsExit(s)
    ensures IsExit(s) ==> Resolve(s).value == Qualifier(s.x) + "." + SelName(s.sel)
  {
    var name := SelName(s.sel);
    var prefix :=
      match s.x
      case Ident(_, _, _) => Some(Qualifier(s.x))
      case Selector(_, _) => Resolve(s.x)
      case Call(fun, _) => Resolve(fun)
      case _ => None;
    match prefix {
      case None =>
        assert Resolve(s).value == "";
      case Some(q) =>
        assert Resolve(s).value == q + "." + name;
        assert EXIT == "os" + "." + "Exit" && FATAL == "log" + "." + "Fatal" && FATALF == "log" + "." + "Fatalf";
        OneDot(q, name, "os", "Exit");
        OneDot(q, name, "log", "Fatal");
        OneDot(q, name, "log", "Fatalf");
        match s.x {
          case Ident(_, _, _) =>
          case Selector(_, _) => DottedOrEmpty(s.x);
          case Call(fun, _) => DottedOrEmpty(fun);
        }
    }
  }

  lemma Joined(a: seq<Issue>, b: seq<Issue>, c: seq<Issue>)
    ensures (a + b) + c == a + (b + c)
  {
  }

  // ---- the visitor ----

  class RageQuitVisitor {
    var nodeStack: seq<Node>
    var isInMainPackage: bool
    var isInMainFunc: bool
    var issues: seq<Issue>

    constructor ()
      ensures issues == []
    {
      nodeStack, isInMainPackage, isInMainFunc, issues := [], false, false, [];
    }

    method ProcessNextFile(f: File)
      modifies this
      ensures nodeStack == [] && !isInMainFunc && isInMainPackage == (f.pkgName == "main") && issues == old(issues)
    {
      nodeStack := [];
      isInMainPackage := f.pkgName == "main";
      isInMainFunc := false;
    }

    /** InspectNode with a node: `panicked` if the linter panics. */
    method Enter(n: Node) returns (panicked: bool)
      modifies this
      ensures panicked == OwnCrash(n, old(isInMainFunc))
      ensures !panicked ==> issues == old(issues) + OwnIssues(n, old(isInMainFunc))
      ensures !panicked ==> nodeStack == old(nodeStack) + [n] && isInMainPackage == old(isInMainPackage)
      ensures !panicked ==>
                isInMainFunc == (old(isInMainFunc) || (old(nodeStack) == [] && isInMainPackage && IsMainFunc(n)))
    {
      panicked := false;
      if n.Call? {
        panicked := CheckRageQuitCall(n);
        if panicked {
          return;
        }
      }
      PushNode(n);
    }

    method PushNode(n: Node)
      modifies this
      ensures nodeStack == old(nodeStack) + [n] && isInMainPackage == old(isInMainPackage) && issues == old(issues)
      ensures isInMainFunc == (old(isInMainFunc) || (old(nodeStack) == [] && isInMainPackage && IsMainFunc(n)))
    {
      nodeStack := nodeStack + [n];
      if |nodeStack| == 1 {
        if !isInMainPackage {
          return;
        }
        if n.FuncDecl? {
          if n.name == "main" && !n.hasRecv {
            isInMainFunc := true;
          }
        }
      }
    }

    /** InspectNode with nil. */
    method PopNode()
      modifies this
      ensures nodeStack == if old(nodeStack) == [] then [] else old(nodeStack)[..|old(nodeStack)| - 1]
      ensures isInMainFunc == if |old(nodeStack)| == 1 then false else old(isInMainFunc)
      ensures isInMainPackage == old(isInMainPackage) && issues == old(issues)
    {
      if |nodeStack| == 0 {
        return;
      }
      nodeStack := nodeStack[..|nodeStack| - 1];
      if |nodeStack| == 0 {
        isInMainFunc := false;
      }
    }

    method CheckRageQuitCall(call: Node) returns (panicked: bool)
      requires call.Call?
      modifies this`issues
      ensures panicked == OwnCrash(call, isInMainFunc)
      ensures !panicked ==> issues == old(issues) + OwnIssues(call, isInMainFunc)
    {
      panicked := false;
      match call.fun
      case Selector(_, _) => panicked := CheckRageQuitSelector(call.fun);
      case Ident(pos, name, _) =>
        if name == "panic" {
          issues := issues + [Issue(pos, NO_PANIC)];
        }
      case _ =>
    }

    method CheckRageQuitSelector(s: Node) returns (panicked: bool)
      requires s.Selector?
      modifies this`issues
      ensures panicked == (!isInMainFunc && BadChain(s))
      ensures !panicked ==> issues == old(issues) + OwnIssues(Call(s, []), isInMainFunc)
    {
      if isInMainFunc {
        return false;
      }
      var sname := Resolve(s);
      ResolveFailsIffBadChain(s);
      if sname == None {
        return true;
      }
      ResolvedNameIsExit(s);
      if sname.value == EXIT || sname.value == FATAL || sname.value == FATALF {
        issues := issues + [Issue(Pos(s), sname.value + OUTSIDE_MAIN)];
      }
      return false;
    }

    /** What counts for the nodes under `n` once it is entered. */
    predicate ExemptUnder(n: Node)
      reads this
    {
      if nodeStack == [] then isInMainPackage && IsMainFunc(n) else isInMainFunc
    }

    /** ast.Inspect: enter, walk the children in source order, leave. */
    method Inspect(n: Node) returns (panicked: bool)
      requires nodeStack == [] ==> !isInMainFunc
      modifies this
      ensures panicked == Crashes(n, old(ExemptUnder(n)))
      ensures !panicked ==> issues == old(issues) + RageQuits(n, old(ExemptUnder(n)))
      ensures !panicked ==> nodeStack == old(nodeStack) && isInMainFunc == old(isInMainFunc)
      ensures !panicked ==> isInMainPackage == old(isInMainPackage)
      decreases n, 1
    {
      ghost var before, exempt := issues, ExemptUnder(n);
      panicked := Enter(n);
      if !panicked {
        assert issues == before + OwnIssues(n, exempt) && isInMainFunc == exempt;
        panicked := InspectChildren(n);
      }
      if !panicked {
        Joined(before, OwnIssues(n, exempt), IssuesUnder(n, exempt));
        PopNode();
      }
    }

    method InspectChildren(n: Node) returns (panicked: bool)
      requires nodeStack != []
      modifies this
      ensures panicked == CrashUnder(n, old(isInMainFunc))
      ensures !panicked ==> issues == old(issues) + IssuesUnder(n, old(isInMainFunc))
      ensures !panicked ==> nodeStack == old(nodeStack) && isInMainFunc == old(isInMainFunc)
      ensures !panicked ==> isInMainPackage == old(isInMainPackage)
      decreases n, 0
    {
      ghost var before, exempt := issues, isInMainFunc;
      match n
      case Ident(_, _, _) => panicked := false;
      case Selector(x, sel) =>
        panicked := Inspect(x);
        if !panicked {
          panicked := Inspect(sel);
          Joined(before, RageQuits(x, exempt), RageQuits(sel, exempt));
        }
      case Call(fun, args) =>
        panicked := Inspect(fun);
        if !panicked {
          panicked := InspectList(args);
          Joined(before, RageQuits(fun, exempt), AllRageQuits(args, exempt));
        }
      case FuncDecl(_, _, _, parts) => panicked := InspectList(parts);
      case Other(_, parts) => panicked := InspectList(parts);
    }

    method InspectList(ns: seq<Node>) returns (panicked: bool)
      requires nodeStack != []
      modifies this
      ensures panicked == SomeCrash(ns, old(isInMainFunc))
      ensures !panicked ==> issues == old(issues) + AllRageQuits(ns, old(isInMainFunc))
      ensures !panicked ==> nodeStack == old(nodeStack) && isInMainFunc == old(isInMainFunc)
      ensures !panicked ==> isInMainPackage == old(isInMainPackage)
      decreases ns, 2
    {
      panicked := false;
      if ns != [] {
        ghost var before, exempt := issues, isInMainFunc;
        panicked := Inspect(ns[0]);
        if !panicked {
          panicked := InspectList(ns[1..]);
          Joined(before, RageQuits(ns[0], exempt), AllRageQuits(ns[1..], exempt));
        }
      }
    }

    method InspectParts(ns: seq<Node>) returns (panicked: bool)
      requires nodeStack == [] && !isInMainFunc
      modifies this
      ensures panicked == PartsCrash(ns, old(isInMainPackage))
      ensures !panicked ==> issues == old(issues) + PartsIssues(ns, old(isInMainPackage))
      ensures !panicked ==> nodeStack == [] && !isInMainFunc && isInMainPackage == old(isInMainPackage)
    {
      panicked := false;
      if ns != [] {
        ghost var before, main := issues, isInMainPackage;
        panicked := Inspect(ns[0]);
        if !panicked {
          panicked := InspectParts(ns[1..]);
          Joined(before, RageQuits(ns[0], main && IsMainFunc(ns[0])), PartsIssues(ns[1..], main));
        }
      }
    }
  }

  /** The analyzer's run over a package: what it reports, or that it panics. */
  method Run(pkgName: string, excluded: seq<string>, files: seq<File>) returns (panicked: bool, reported: seq<Issue>)
    ensures pkgName in excluded ==> !panicked && reported == []
    ensures pkgName !in excluded ==>
              panicked == exists i :: 0 <= i < |files| && PartsCrash(files[i].parts, files[i].pkgName == "main")
    ensures pkgName !in excluded && !panicked ==> reported == FilesIssues(files)
  {
    panicked, reported := false, [];
    for i := 0 to |excluded|
      invariant pkgName !in excluded[..i]
    {
      if pkgName == excluded[i] {
        return;
      }
    }
    assert excluded[..|excluded|] == excluded;
    var v := new RageQuitVisitor();
    for i := 0 to |files|
      invariant forall k :: 0 <= k < i ==> !PartsCrash(files[k].parts, files[k].pkgName == "main")
      invariant v.issues == FilesIssues(files[..i])
    {
      // entering the file node pushes nothing, leaving it finds the stack empty
      v.ProcessNextFile(files[i]);
      panicked := v.InspectParts(files[i].parts);
      if panicked {
        return;
      }
      v.PopNode();
      assert files[..i + 1][..i] == files[..i];
    }
    assert files[..|files|] == files;
    reported := v.issues;
  }

  // ---- the specification, node by node ----

  /** `c` is `n` or somewhere under it. */
  ghost predicate Within(c: Node, n: Node) {
    c == n ||
    match n
    case Ident(_, _, _) => false
    case Selector(x, sel) => Within(c, x) || Within(c, sel)
    case Call(fun, args) => Within(c, fun) || exists a :: a in args && Within(c, a)
    case FuncDecl(_, _, _, parts) => exists a :: a in parts && Within(c, a)
    case Other(_, parts) => exists a :: a in parts && Within(c, a)
  }

  /** Nothing else is reported, and nothing is missed: the issues under a node are those of the calls within it. */
  lemma {:induction false} ReportedIffWithin(n: Node, exempt: bool, i: Issue)
    ensures i in RageQuits(n, exempt) <==> exists c :: Within(c, n) && i in OwnIssues(c, exempt)
    decreases n, 1
  {
    match n
    case Ident(_, _, _) =>
      assert i in OwnIssues(n, exempt) ==> Within(n, n);
    case Selector(x, sel) =>
      ReportedIffWithin(x, exempt, i);
      ReportedIffWithin(sel, exempt, i);
      assert Within(n, n);
    case Call(fun, args) =>
      ReportedIffWithin(fun, exempt, i);
      ReportedInList(args, exempt, i);
      assert Within(n, n);
    case FuncDecl(_, _, _, parts) =>
      ReportedInList(parts, exempt, i);
    case Other(_, parts) =>
      ReportedInList(parts, exempt, i);
  }

  lemma {:induction false} ReportedInList(ns: seq<Node>, exempt: bool, i: Issue)
    ensures i in AllRageQuits(ns, exempt) <==>
            exists a, c :: a in ns && Within(c, a) && i in OwnIssues(c, exempt)
    decreases ns, 0
  {
    if ns != [] {
      ReportedIffWithin(ns[0], exempt, i);
      ReportedInList(ns[1..], exempt, i);
      assert ns == [ns[0]] + ns[1..];
    }
  }

  /** Some call in a file has the issue; only main functions excuse an exit. */
  ghost predicate HasIssue(ns: seq<Node>, mainPackage: bool, i: Issue) {
    exists a, c :: a in ns && Within(c, a) && i in OwnIssues(c, mainPackage && IsMainFunc(a))
  }

  lemma {:induction false} PartsReported(ns: seq<Node>, mainPackage: bool, i: Issue)
    ensures i in PartsIssues(ns, mainPackage) <==> HasIssue(ns, mainPackage, i)
  {
    if ns != [] {
      ReportedIffWithin(ns[0], mainPackage && IsMainFunc(ns[0]), i);
      PartsReported(ns[1..], mainPackage, i);
      assert ns == [ns[0]] + ns[1..];
    }
  }

  /** A package's report holds an issue exactly if one of its calls has it. */
  lemma {:induction false} ReportIsExact(fs: seq<File>, i: Issue)
    ensures i in FilesIssues(fs) <==> exists f :: f in fs && HasIssue(f.parts, f.pkgName == "main", i)
  {
    if fs != [] {
      var init, last := fs[..|fs| - 1], fs[|fs| - 1];
      ReportIsExact(init, i);
      PartsReported(last.parts, last.pkgName == "main", i);
      assert fs == init + [last];
    }
  }

  /** The linter breaks down under a node exactly if one of the calls it must judge hangs on a bad chain. */
  lemma {:induction false} CrashesIffWithin(n: Node, exempt: bool)
    ensures Crashes(n, exempt) <==> exists c :: Within(c, n) && OwnCrash(c, exempt)
    decreases n, 1
  {
    match n
    case Ident(_, _, _) =>
      assert !OwnCrash(n, exempt);
    case Selector(x, sel) =>
      CrashesIffWithin(x, exempt);
      CrashesIffWithin(sel, exempt);
    case Call(fun, args) =>
      CrashesIffWithin(fun, exempt);
      CrashInList(args, exempt);
      assert Within(n, n);
    case FuncDecl(_, _, _, parts) =>
      CrashInList(parts, exempt);
    case Other(_, parts) =>
      CrashInList(parts, exempt);
  }

  /** An instance: f().Close() outside main. */
  lemma PlainCallChainCrashes()
    ensures Crashes(Call(Selector(Call(Ident(0, "f", None), []), Ident(1, "Close", None)), []), false)
  {
  }

  lemma {:induction false} CrashInList(ns: seq<Node>, exempt: bool)
    ensures SomeCrash(ns, exempt) <==> exists a, c :: a in ns && Within(c, a) && OwnCrash(c, exempt)
    decreases ns, 0
  {
    if ns != [] {
      CrashesIffWithin(ns[0], exempt);
      CrashInList(ns[1..], exempt);
      assert ns == [ns[0]] + ns[1..];
    }
  }

  // ---- the report, read off the syntax ----

  /** A call of something plainly named panic, at a position. */
  predicate IsPanicCall(c: Node, pos: nat) {
    c.Call? && c.fun.Ident? && c.fun.name == "panic" && c.fun.pos == pos
  }

  /** A call of q.name, q being an import path, or the identifier's own name where it is no package. */
  predicate IsCallOf(c: Node, pos: nat, q: string, name: string) {
    && c.Call? && c.fun.Selector? && c.fun.x.Ident? && c.fun.sel.Ident?
    && c.fun.x.pos == pos && c.fun.sel.name == name
    && (match c.fun.x.pkg
        case Some(path) => path == q
        case None => c.fun.x.name == q)
  }

  predicate IsExitName(q: string, name: string) {
    (q == "os" && name == "Exit") || (q == "log" && (name == "Fatal" || name == "Fatalf"))
  }

  /** The declaration is the main function of package main. */
  predicate InMain(f: File, a: Node) {
    f.pkgName == "main" && a.FuncDecl? && a.name == "main" && !a.hasRecv
  }

  function ExitText(q: string, name: string): string {
    q + "." + name + " should not be called outside main function"
  }

  lemma TextsDiffer(q: string, name: string)
    requires IsExitName(q, name)
    ensures ExitText(q, name) != "panic should not be used"
  {
    assert ExitText(q, name)[0] == q[0] && q[0] in {'o', 'l'};
    assert "panic should not be used"[0] == 'p';
  }

  lemma ExitTextsDiffer(q: string, name: string, q': string, name': string)
    requires IsExitName(q, name) && IsExitName(q', name')
    ensures ExitText(q, name) == ExitText(q', name') ==> q == q' && name == name'
  {
    var a, b := q + "." + name, q' + "." + name';
    if ExitText(q, name) == ExitText(q', name') {
      assert |a| == |b| && ExitText(q, name)[..|a|] == a && ExitText(q', name')[..|b|] == b;
      OneDot(q, name, q', name');
    }
  }

  lemma OwnPanic(c: Node, exempt: bool, pos: nat)
    ensures Issue(pos, "panic should not be used") in OwnIssues(c, exempt) <==> IsPanicCall(c, pos)
  {
    if c.Call? && c.fun.Selector? && IsExit(c.fun) {
      TextsDiffer(Qualifier(c.fun.x), SelName(c.fun.sel));
    }
  }

  lemma OwnExit(c: Node, exempt: bool, pos: nat, q: string, name: string)
    requires IsExitName(q, name)
    ensures Issue(pos, ExitText(q, name)) in OwnIssues(c, exempt) <==> !exempt && IsCallOf(c, pos, q, name)
  {
    TextsDiffer(q, name);
    if c.Call? && c.fun.Selector? && IsExit(c.fun) {
      ExitTextsDiffer(Qualifier(c.fun.x), SelName(c.fun.sel), q, name);
    }
  }

  /** Some call of panic stands at a position of a file, inside the main function or not. */
  ghost predicate PanicIn(f: File, pos: nat) {
    exists a, c :: a in f.parts && Within(c, a) && IsPanicCall(c, pos)
  }

  /** Some call of q.name stands there outside the main function. */
  ghost predicate ExitIn(f: File, pos: nat, q: string, name: string) {
    exists a, c :: a in f.parts && !InMain(f, a) && Within(c, a) && IsCallOf(c, pos, q, name)
  }

  lemma PanicInFile(f: File, pos: nat)
    ensures HasIssue(f.parts, f.pkgName == "main", Issue(pos, "panic should not be used")) <==> PanicIn(f, pos)
  {
    var i, main := Issue(pos, "panic should not be used"), f.pkgName == "main";
    if HasIssue(f.parts, main, i) {
      var a, c :| a in f.parts && Within(c, a) && i in OwnIssues(c, main && IsMainFunc(a));
      OwnPanic(c, main && IsMainFunc(a), pos);
    }
    if PanicIn(f, pos) {
      var a, c :| a in f.parts && Within(c, a) && IsPanicCall(c, pos);
      OwnPanic(c, main && IsMainFunc(a), pos);
      assert i in OwnIssues(c, main && IsMainFunc(a));
    }
  }

  lemma ExitInFile(f: File, pos: nat, q: string, name: string)
    requires IsExitName(q, name)
    ensures HasIssue(f.parts, f.pkgName == "main", Issue(pos, ExitText(q, name))) <==> ExitIn(f, pos, q, name)
  {
    var i, main := Issue(pos, ExitText(q, name)), f.pkgName == "main";
    if HasIssue(f.parts, main, i) {
      var a, c :| a in f.parts && Within(c, a) && i in OwnIssues(c, main && IsMainFunc(a));
      OwnExit(c, main && IsMainFunc(a), pos, q, name);
    }
    if ExitIn(f, pos, q, name) {
      var a, c :| a in f.parts && !InMain(f, a) && Within(c, a) && IsCallOf(c, pos, q, name);
      OwnExit(c, main && IsMainFunc(a), pos, q, name);
      assert i in OwnIssues(c, main && IsMainFunc(a));
    }
  }

  /** A panic is reported at a position if and only if some call of panic stands there, inside main functions too. */
  lemma PanicReportedIff(fs: seq<File>, pos: nat)
    ensures Issue(pos, "panic should not be used") in FilesIssues(fs) <==> exists f :: f in fs && PanicIn(f, pos)
  {
    ReportIsExact(fs, Issue(pos, "panic should not be used"));
    forall f: File
      ensures HasIssue(f.parts, f.pkgName == "main", Issue(pos, "panic should not be used")) <==> PanicIn(f, pos)
    {
      PanicInFile(f, pos);
    }
  }

  /** An exit is reported at a position if and only if some call of it stands there outside the main function. */
  lemma ExitReportedIff(fs: seq<File>, pos: nat, q: string, name: string)
    requires IsExitName(q, name)
    ensures Issue(pos, ExitText(q, name)) in FilesIssues(fs) <==> exists f :: f in fs && ExitIn(f, pos, q, name)
  {
    ReportIsExact(fs, Issue(pos, ExitText(q, name)));
    forall f: File
      ensures HasIssue(f.parts, f.pkgName == "main", Issue(pos, ExitText(q, name))) <==> ExitIn(f, pos, q, name)
    {
      ExitInFile(f, pos, q, name);
    }
  }

  /** Nothing else is ever reported. */
  lemma OnlySuchIssues(fs: seq<File>, i: Issue)
    requires i in FilesIssues(fs)
    ensures i.message == "panic should not be used"
            || exists q, name :: IsExitName(q, name) && i.message == ExitText(q, name)
  {
    ReportIsExact(fs, i);
    var f :| f in fs && HasIssue(f.parts, f.pkgName == "main", i);
    var a, c :| a in f.parts && Within(c, a) && i in OwnIssues(c, f.pkgName == "main" && IsMainFunc(a));
    if c.fun.Selector? {
      assert IsExitName(Qualifier(c.fun.x), SelName(c.fun.sel));
      assert i.message == ExitText(Qualifier(c.fun.x), SelName(c.fun.sel));
    }
  }

  // ---- once each, in source order ----

  /** A node, then what is under it. */
  function Preorder(n: Node): seq<Node>
    decreases n, 1
  {
    [n] + match n
          case Ident(_, _, _) => []
          case Selector(x, sel) => Preorder(x) + Preorder(sel)
          case Call(fun, args) => Preorder(fun) + PreorderAll(args)
          case FuncDecl(_, _, _, parts) => PreorderAll(parts)
          case Other(_, parts) => PreorderAll(parts)
  }

  function PreorderAll(ns: seq<Node>): seq<Node>
    decreases ns, 0
  {
    if ns == [] then [] else Preorder(ns[0]) + PreorderAll(ns[1..])
  }

  /** What is counted of each node of a list, in turn. */
  function Gather(ns: seq<Node>, exempt: bool, own: Judge): seq<Issue> {
    if ns == [] then [] else Gather(ns[..|ns| - 1], exempt, own) + own(ns[|ns| - 1], exempt)
  }

  lemma {:induction false} GatherBoth(a: seq<Node>, b: seq<Node>, exempt: bool, own: Judge)
    ensures Gather(a + b, exempt, own) == Gather(a, exempt, own) + Gather(b, exempt, own)
  {
    if b == [] {
      assert a + b == a;
    } else {
      var n := |b| - 1;
      GatherBoth(a, b[..n], exempt, own);
      assert (a + b)[..|a + b| - 1] == a + b[..n];
    }
  }

  lemma GatherOne(n: Node, exempt: bool, own: Judge)
    ensures Gather([n], exempt, own) == own(n, exempt)
  {
    assert [n][..0] == [];
  }

  /** The issues are those of the nodes one by one, each node once, a node before what is under it. */
  lemma {:induction false} InPreorder(n: Node, exempt: bool, own: Judge)
    ensures RageQuits(n, exempt, own) == Gather(Preorder(n), exempt, own)
    decreases n, 1
  {
    GatherOne(n, exempt, own);
    match n {
      case Ident(_, _, _) =>
      case Selector(x, sel) =>
        InPreorder(x, exempt, own);
        InPreorder(sel, exempt, own);
        GatherBoth(Preorder(x), Preorder(sel), exempt, own);
      case Call(fun, args) =>
        InPreorder(fun, exempt, own);
        AllInPreorder(args, exempt, own);
        GatherBoth(Preorder(fun), PreorderAll(args), exempt, own);
      case FuncDecl(_, _, _, parts) =>
        AllInPreorder(parts, exempt, own);
      case Other(_, parts) =>
        AllInPreorder(parts, exempt, own);
    }
    GatherBoth([n], Preorder(n)[1..], exempt, own);
    assert Preorder(n) == [n] + Preorder(n)[1..];
  }

  lemma {:induction false} AllInPreorder(ns: seq<Node>, exempt: bool, own: Judge)
    ensures AllRageQuits(ns, exempt, own) == Gather(PreorderAll(ns), exempt, own)
    decreases ns, 0
  {
    if ns != [] {
      InPreorder(ns[0], exempt, own);
      AllInPreorder(ns[1..], exempt, own);
      GatherBoth(Preorder(ns[0]), PreorderAll(ns[1..]), exempt, own);
    }
  }

  /** The panics among some nodes, at a position. */
  function PanicCalls(ns: seq<Node>, pos: nat): nat {
    if ns == [] then 0
    else PanicCalls(ns[..|ns| - 1], pos) + if IsPanicCall(ns[|ns| - 1], pos) then 1 else 0
  }

  function CallsOf(ns: seq<Node>, pos: nat, q: string, name: string): nat {
    if ns == [] then 0
    else CallsOf(ns[..|ns| - 1], pos, q, name) + if IsCallOf(ns[|ns| - 1], pos, q, name) then 1 else 0
  }

  lemma AtMostOne(c: Node, exempt: bool, i: Issue)
    ensures |OwnIssues(c, exempt)| <= 1
    ensures multiset(OwnIssues(c, exempt))[i] == if i in OwnIssues(c, exempt) then 1 else 0
  {
  }

  lemma {:induction false} GatheredOnce(ns: seq<Node>, exempt: bool, pos: nat, q: string, name: string)
    requires IsExitName(q, name)
    ensures multiset(Gather(ns, exempt, OwnIssues))[Issue(pos, "panic should not be used")] == PanicCalls(ns, pos)
    ensures multiset(Gather(ns, exempt, OwnIssues))[Issue(pos, ExitText(q, name))]
            == if exempt then 0 else CallsOf(ns, pos, q, name)
  {
    if ns != [] {
      var n := |ns| - 1;
      GatheredOnce(ns[..n], exempt, pos, q, name);
      OwnPanic(ns[n], exempt, pos);
      OwnExit(ns[n], exempt, pos, q, name);
      AtMostOne(ns[n], exempt, Issue(pos, "panic should not be used"));
      AtMostOne(ns[n], exempt, Issue(pos, ExitText(q, name)));
    }
  }

  /** Each call is reported once: the report of a declaration counts the calls in it. */
  lemma EachCallOnce(n: Node, exempt: bool, pos: nat, q: string, name: string)
    requires IsExitName(q, name)
    ensures multiset(RageQuits(n, exempt))[Issue(pos, "panic should not be used")] == PanicCalls(Preorder(n), pos)
    ensures multiset(RageQuits(n, exempt))[Issue(pos, ExitText(q, name))]
            == if exempt then 0 else CallsOf(Preorder(n), pos, q, name)
  {
    InPreorder(n, exempt, OwnIssues);
    GatheredOnce(Preorder(n), exempt, pos, q, name);
  }

  lemma CountsJoin(a: seq<Issue>, b: seq<Issue>, i: Issue)
    ensures multiset(a + b)[i] == multiset(a)[i] + multiset(b)[i]
  {
    assert multiset(a + b) == multiset(a) + multiset(b);
  }

  /** The panics in the declarations of a file, at a position. */
  function PanicsOf(ns: seq<Node>, pos: nat): nat {
    if ns == [] then 0 else PanicCalls(Preorder(ns[0]), pos) + PanicsOf(ns[1..], pos)
  }

  /** The exits in those that are not the main function. */
  function ExitsOf(f: File, ns: seq<Node>, pos: nat, q: string, name: string): nat {
    if ns == [] then 0
    else (if InMain(f, ns[0]) then 0 else CallsOf(Preorder(ns[0]), pos, q, name)) + ExitsOf(f, ns[1..], pos, q, name)
  }

  /** So a file's part of the report counts its panics everywhere. */
  lemma {:induction false} PanicsReportedOnce(f: File, ns: seq<Node>, pos: nat)
    ensures multiset(PartsIssues(ns, f.pkgName == "main"))[Issue(pos, "panic should not be used")] == PanicsOf(ns, pos)
  {
    if ns != [] {
      var exempt, i := f.pkgName == "main" && IsMainFunc(ns[0]), Issue(pos, "panic should not be used");
      EachCallOnce(ns[0], exempt, pos, "os", "Exit");
      PanicsReportedOnce(f, ns[1..], pos);
      CountsJoin(RageQuits(ns[0], exempt), PartsIssues(ns[1..], f.pkgName == "main"), i);
    }
  }

  /** And its exits outside the main function. */
  lemma {:induction false} ExitsReportedOnce(f: File, ns: seq<Node>, pos: nat, q: string, name: string)
    requires IsExitName(q, name)
    ensures multiset(PartsIssues(ns, f.pkgName == "main"))[Issue(pos, ExitText(q, name))]
            == ExitsOf(f, ns, pos, q, name)
  {
    if ns != [] {
      var exempt, i := f.pkgName == "main" && IsMainFunc(ns[0]), Issue(pos, ExitText(q, name));
      EachCallOnce(ns[0], exempt, pos, q, name);
      ExitsReportedOnce(f, ns[1..], pos, q, name);
      CountsJoin(RageQuits(ns[0], exempt), PartsIssues(ns[1..], f.pkgName == "main"), i);
    }
  }

  lemma {:induction false} WithinIsPreorder(c: Node, n: Node)
    ensures Within(c, n) <==> c in Preorder(n)
    decreases n, 1
  {
    match n
    case Ident(_, _, _) =>
    case Selector(x, sel) =>
      WithinIsPreorder(c, x);
      WithinIsPreorder(c, sel);
    case Call(fun, args) =>
      WithinIsPreorder(c, fun);
      WithinList(c, args);
    case FuncDecl(_, _, _, parts) =>
      WithinList(c, parts);
    case Other(_, parts) =>
      WithinList(c, parts);
  }

  lemma {:induction false} WithinList(c: Node, ns: seq<Node>)
    ensures (exists a :: a in ns && Within(c, a)) <==> c in PreorderAll(ns)
    decreases ns, 0
  {
    if ns != [] {
      WithinIsPreorder(c, ns[0]);
      WithinList(c, ns[1..]);
      assert ns == [ns[0]] + ns[1..];
    }
  }

  // ---- when the linter panics, read off the syntax ----

  /** Going left from a selector, through selectors and through calls of selectors, one comes to c. */
  predicate HangsOn(s: Node, c: Node)
    requires s.Selector?
  {
    || c == s.x
    || (s.x.Selector? && HangsOn(s.x, c))
    || (s.x.Call? && s.x.fun.Selector? && HangsOn(s.x.fun, c))
  }

  lemma {:induction false} BadChainIff(s: Node)
    requires s.Selector?
    ensures BadChain(s) <==> exists c :: HangsOn(s, c) && c.Call? && !c.fun.Selector?
  {
    assert HangsOn(s, s.x);
    if s.x.Selector? {
      BadChainIff(s.x);
    } else if s.x.Call? && s.x.fun.Selector? {
      BadChainIff(s.x.fun);
    }
  }

  /** A call whose callee is a selector hanging on a call of something that is no selector. */
  ghost predicate IsBadCall(c: Node) {
    c.Call? && c.fun.Selector? && exists d :: HangsOn(c.fun, d) && d.Call? && !d.fun.Selector?
  }

  /** The linter panics over a file if and only if such a call stands in it outside the main function. */
  lemma {:induction false} FileCrashesIff(f: File, ns: seq<Node>)
    ensures PartsCrash(ns, f.pkgName == "main") <==>
            exists a, c :: a in ns && !InMain(f, a) && Within(c, a) && IsBadCall(c)
  {
    if ns != [] {
      assert ns == [ns[0]] + ns[1..];
      FileCrashesIff(f, ns[1..]);
      PartCrashesIff(f, ns[0]);
    }
  }

  lemma PartCrashesIff(f: File, a: Node)
    ensures Crashes(a, f.pkgName == "main" && IsMainFunc(a)) <==>
            exists c :: !InMain(f, a) && Within(c, a) && IsBadCall(c)
  {
    var exempt := f.pkgName == "main" && IsMainFunc(a);
    CrashesIffWithin(a, exempt);
    forall c
      ensures OwnCrash(c, exempt) <==> !InMain(f, a) && IsBadCall(c)
    {
      if c.Call? && c.fun.Selector? {
        BadChainIff(c.fun);
      }
    }
  }

  // ---- exits told by name alone ----

  /** One of the three functions, whatever name its package is imported under. */
  predicate IsPackageExit(s: Node)
    requires s.Selector?
  {
    s.x.Ident? && s.x.pkg.Some? && IsExit(s)
  }

  /** The issues the linter is meant to find at a node: only exits that are functions of the packages os and log. */
  function PackageIssues(n: Node, exempt: bool): seq<Issue> {
    if n.Call? && n.fun.Selector? && !IsPackageExit(n.fun) then [] else OwnIssues(n, exempt)
  }

  /** A judged call of a method named like an exit, on something of the program's own named os or log. */
  predicate Misread(n: Node, exempt: bool) {
    && n.Call? && n.fun.Selector? && !exempt && n.fun.x.Ident? && n.fun.x.pkg == None
    && (n.fun.x.name, SelName(n.fun.sel)) in {("os", "Exit"), ("log", "Fatal"), ("log", "Fatalf")}
  }

  lemma OwnMisread(n: Node, exempt: bool)
    ensures |PackageIssues(n, exempt)| == |OwnIssues(n, exempt)| - if Misread(n, exempt) then 1 else 0
    ensures !Misread(n, exempt) ==> PackageIssues(n, exempt) == OwnIssues(n, exempt)
  {
  }

  /** What is found is what is meant, or more if something is misread. */
  ghost predicate Compared(found: seq<Issue>, meant: seq<Issue>, misread: bool) {
    && |meant| <= |found|
    && (misread ==> |meant| < |found|)
    && (!misread ==> meant == found)
  }

  lemma ComparedBoth(f: seq<Issue>, m: seq<Issue>, a: bool, f': seq<Issue>, m': seq<Issue>, b: bool)
    requires Compared(f, m, a) && Compared(f', m', b)
    ensures Compared(f + f', m + m', a || b)
  {
  }

  ghost predicate MisreadIn(n: Node, exempt: bool) {
    exists c :: Within(c, n) && Misread(c, exempt)
  }

  ghost predicate MisreadAmong(ns: seq<Node>, exempt: bool) {
    exists a :: a in ns && MisreadIn(a, exempt)
  }

  lemma MisreadSplits(n: Node, exempt: bool)
    ensures MisreadIn(n, exempt) <==>
            || Misread(n, exempt)
            || (n.Selector? && (MisreadIn(n.x, exempt) || MisreadIn(n.sel, exempt)))
            || (n.Call? && (MisreadIn(n.fun, exempt) || MisreadAmong(n.args, exempt)))
            || (n.FuncDecl? && MisreadAmong(n.parts, exempt))
            || (n.Other? && MisreadAmong(n.parts, exempt))
  {
    assert Within(n, n);
  }

  lemma AmongFirst(ns: seq<Node>, exempt: bool)
    requires ns != []
    ensures MisreadAmong(ns, exempt) <==> MisreadIn(ns[0], exempt) || MisreadAmong(ns[1..], exempt)
  {
    assert ns == [ns[0]] + ns[1..];
  }

  lemma {:induction false} MisreadUnder(n: Node, exempt: bool)
    ensures Compared(RageQuits(n, exempt), RageQuits(n, exempt, PackageIssues), MisreadIn(n, exempt))
    decreases n, 1
  {
    MisreadSplits(n, exempt);
    OwnMisread(n, exempt);
    var f, m := IssuesUnder(n, exempt), IssuesUnder(n, exempt, PackageIssues);
    var under := false;
    match n {
      case Ident(_, _, _) =>
      case Selector(x, sel) =>
        MisreadUnder(x, exempt);
        MisreadUnder(sel, exempt);
        under := MisreadIn(x, exempt) || MisreadIn(sel, exempt);
        ComparedBoth(RageQuits(x, exempt), RageQuits(x, exempt, PackageIssues), MisreadIn(x, exempt),
                     RageQuits(sel, exempt), RageQuits(sel, exempt, PackageIssues), MisreadIn(sel, exempt));
      case Call(fun, args) =>
        MisreadUnder(fun, exempt);
        MisreadInList(args, exempt);
        under := MisreadIn(fun, exempt) || MisreadAmong(args, exempt);
        ComparedBoth(RageQuits(fun, exempt), RageQuits(fun, exempt, PackageIssues), MisreadIn(fun, exempt),
                     AllRageQuits(args, exempt), AllRageQuits(args, exempt, PackageIssues),
                     MisreadAmong(args, exempt));
      case FuncDecl(_, _, _, parts) =>
        MisreadInList(parts, exempt);
        under := MisreadAmong(parts, exempt);
      case Other(_, parts) =>
        MisreadInList(parts, exempt);
        under := MisreadAmong(parts, exempt);
    }
    ComparedBoth(OwnIssues(n, exempt), PackageIssues(n, exempt), Misread(n, exempt), f, m, under);
  }

  lemma {:induction false} MisreadInList(ns: seq<Node>, exempt: bool)
    ensures Compared(AllRageQuits(ns, exempt), AllRageQuits(ns, exempt, PackageIssues), MisreadAmong(ns, exempt))
    decreases ns, 0
  {
    if ns != [] {
      AmongFirst(ns, exempt);
      MisreadUnder(ns[0], exempt);
      MisreadInList(ns[1..], exempt);
      ComparedBoth(RageQuits(ns[0], exempt), RageQuits(ns[0], exempt, PackageIssues), MisreadIn(ns[0], exempt),
                   AllRageQuits(ns[1..], exempt), AllRageQuits(ns[1..], exempt, PackageIssues),
                   MisreadAmong(ns[1..], exempt));
    }
  }

  ghost predicate MisreadInPart(n: Node, mainPackage: bool) {
    MisreadIn(n, mainPackage && IsMainFunc(n))
  }

  ghost predicate MisreadInFile(ns: seq<Node>, mainPackage: bool) {
    exists a :: a in ns && MisreadInPart(a, mainPackage)
  }

  lemma FileFirst(ns: seq<Node>, mainPackage: bool)
    requires ns != []
    ensures MisreadInFile(ns, mainPackage) <==>
            MisreadInPart(ns[0], mainPackage) || MisreadInFile(ns[1..], mainPackage)
  {
    assert ns == [ns[0]] + ns[1..];
  }

  lemma {:induction false} MisreadInParts(ns: seq<Node>, mainPackage: bool)
    ensures Compared(PartsIssues(ns, mainPackage), PartsIssues(ns, mainPackage, PackageIssues),
                     MisreadInFile(ns, mainPackage))
  {
    if ns != [] {
      FileFirst(ns, mainPackage);
      var exempt := mainPackage && IsMainFunc(ns[0]);
      MisreadUnder(ns[0], exempt);
      MisreadInParts(ns[1..], mainPackage);
      ComparedBoth(RageQuits(ns[0], exempt), RageQuits(ns[0], exempt, PackageIssues), MisreadIn(ns[0], exempt),
                   PartsIssues(ns[1..], mainPackage), PartsIssues(ns[1..], mainPackage, PackageIssues),
                   MisreadInFile(ns[1..], mainPackage));
    }
  }

  ghost predicate MisreadInPackage(fs: seq<File>) {
    exists f :: f in fs && MisreadInFile(f.parts, f.pkgName == "main")
  }

  lemma {:induction false} MisreadInFiles(fs: seq<File>)
    ensures Compared(FilesIssues(fs), FilesIssues(fs, PackageIssues), MisreadInPackage(fs))
  {
    if fs != [] {
      var init, last := fs[..|fs| - 1], fs[|fs| - 1];
      assert fs == init + [last];
      MisreadInFiles(init);
      MisreadInParts(last.parts, last.pkgName == "main");
      ComparedBoth(FilesIssues(init), FilesIssues(init, PackageIssues), MisreadInPackage(init),
                   PartsIssues(last.parts, last.pkgName == "main"),
                   PartsIssues(last.parts, last.pkgName == "main", PackageIssues),
                   MisreadInFile(last.parts, last.pkgName == "main"));
    }
  }

  /**
   A package's report is the one meant, with exits of the packages os and log alone, if and only if no judged call
   goes to a method named like one on something else named os or log. If one does, more is reported.
   */
  lemma ReportAsMeantIff(fs: seq<File>)
    ensures FilesIssues(fs) == FilesIssues(fs, PackageIssues) <==> !MisreadInPackage(fs)
    ensures |FilesIssues(fs, PackageIssues)| <= |FilesIssues(fs)|
  {
    MisreadInFiles(fs);
  }

  /** An instance: log.Fatal() on a local variable. */
  lemma LocalLogMisread()
    ensures MisreadInPackage([File("p", [Call(Selector(Ident(0, "log", None), Ident(1, "Fatal", None)), [])])])
  {
    var call := Call(Selector(Ident(0, "log", None), Ident(1, "Fatal", None)), []);
    var f := File("p", [call]);
    assert Within(call, call) && Misread(call, false);
    assert call in f.parts && MisreadIn(call, false);
    assert MisreadInPart(call, false) && f in [f] && MisreadInFile(f.parts, false);
  }
}
