/**
 Which names a function declares, said by where the declarations stand in its text, and that the compiler
 theorem asks for no more scoping than the grammar gives.
 */
module DeclaredNames {
  import opened Source
  import opened Simulation
  import opened StatementSim
  import opened CompilerCorrect

  /** a stands somewhere in st, or is st. */
  predicate Inside(a: Stmt, st: Stmt) {
    || a == st
    || match st
       case Block(body) => exists i :: 0 <= i < |body| && Inside(a, body[i])
       case If(_, s, t) => Inside(a, s) || (t.Some? && Inside(a, t.value))
       case While(_, _, s) => Inside(a, s)
       case DoWhile(_, s, _) => Inside(a, s)
       case For(_, _, _, _, s) => Inside(a, s)
       case Switch(_, _, cases) => exists i, j :: 0 <= i < |cases| && 0 <= j < |cases[i].body| && Inside(a, cases[i].body[j])
       case _ => false
  }

  predicate Lists(ds: seq<Decl>, x: string) { exists i :: 0 <= i < |ds| && ds[i].name == x }

  /** a itself declares the var x. */
  predicate DeclaresVar(a: Stmt, x: string) {
    || (a.VarDecl? && !a.isLet && Lists(a.decls, x))
    || (a.For? && a.init.InitDecl? && !a.init.isLet && Lists(a.init.decls, x))
  }

  lemma DeclNamesAre(ds: seq<Decl>, x: string)
    ensures x in DeclNames(ds) <==> Lists(ds, x)
  {
    if Lists(ds, x) {
      var i :| 0 <= i < |ds| && ds[i].name == x;
      assert DeclNames(ds)[i] == x;
    }
  }

  /** The vars of a statement are those declared anywhere in it. */
  lemma VarNamesAre(st: Stmt, x: string)
    ensures x in VarNames(st) <==> exists a :: Inside(a, st) && DeclaresVar(a, x)
  {
    if x in VarNames(st) { var a := VarFound(st, x); }
    forall a | Inside(a, st) && DeclaresVar(a, x) ensures x in VarNames(st) { VarCounted(st, a, x); }
  }

  lemma {:induction false} VarFound(st: Stmt, x: string) returns (a: Stmt)
    requires x in VarNames(st)
    ensures Inside(a, st) && DeclaresVar(a, x)
    decreases st, 0
  {
    hide DeclNames;
    a := st;
    match st {
      case VarDecl(_, ds) => DeclNamesAre(ds, x);
      case Block(body) =>
        var i := FoundIn(body, x);
        a := VarFound(body[i], x);
      case If(_, s, t) =>
        if x in VarNames(s) { a := VarFound(s, x); } else { a := VarFound(t.value, x); }
      case While(_, _, s) => a := VarFound(s, x);
      case DoWhile(_, s, _) => a := VarFound(s, x);
      case For(_, init, _, _, s) =>
        if x in VarNames(s) { a := VarFound(s, x); } else { DeclNamesAre(init.decls, x); }
      case Switch(_, _, cases) =>
        var i, j := FoundInCases(cases, x);
        a := VarFound(cases[i].body[j], x);
    }
  }

  lemma {:induction false} FoundIn(body: seq<Stmt>, x: string) returns (i: nat)
    requires x in VarNamesIn(body)
    ensures i < |body| && x in VarNames(body[i])
    decreases body
  {
    hide VarNames;
    if x in VarNames(body[0]) {
      i := 0;
    } else {
      i := FoundIn(body[1..], x);
      i := i + 1;
    }
  }

  lemma {:induction false} FoundInCases(cases: seq<Case>, x: string) returns (i: nat, j: nat)
    requires x in VarNamesOf(cases)
    ensures i < |cases| && j < |cases[i].body| && x in VarNames(cases[i].body[j])
    decreases cases
  {
    hide VarNames, VarNamesIn;
    if x in VarNamesIn(cases[0].body) {
      i := 0;
      j := FoundIn(cases[0].body, x);
    } else {
      i, j := FoundInCases(cases[1..], x);
      i := i + 1;
    }
  }

  lemma {:induction false} VarCounted(st: Stmt, a: Stmt, x: string)
    requires Inside(a, st) && DeclaresVar(a, x)
    ensures x in VarNames(st)
    decreases st, 0
  {
    hide DeclNames;
    if a == st {
      match st {
        case VarDecl(_, ds) => DeclNamesAre(ds, x);
        case For(_, init, _, _, _) => DeclNamesAre(init.decls, x);
      }
    } else {
      match st {
        case Block(body) =>
          var i :| 0 <= i < |body| && Inside(a, body[i]);
          VarCounted(body[i], a, x);
          CountedIn(body, i, x);
        case If(_, s, t) => if Inside(a, s) { VarCounted(s, a, x); } else { VarCounted(t.value, a, x); }
        case While(_, _, s) => VarCounted(s, a, x);
        case DoWhile(_, s, _) => VarCounted(s, a, x);
        case For(_, _, _, _, s) => VarCounted(s, a, x);
        case Switch(_, _, cases) =>
          var i, j :| 0 <= i < |cases| && 0 <= j < |cases[i].body| && Inside(a, cases[i].body[j]);
          VarCounted(cases[i].body[j], a, x);
          CountedIn(cases[i].body, j, x);
          CountedInCases(cases, i, x);
      }
    }
  }

  lemma {:induction false} CountedIn(body: seq<Stmt>, i: nat, x: string)
    requires i < |body| && x in VarNames(body[i])
    ensures x in VarNamesIn(body)
    decreases body
  {
    hide VarNames;
    if i > 0 { CountedIn(body[1..], i - 1, x); }
  }

  lemma {:induction false} CountedInCases(cases: seq<Case>, i: nat, x: string)
    requires i < |cases| && x in VarNamesIn(cases[i].body)
    ensures x in VarNamesOf(cases)
    decreases cases
  {
    hide VarNamesIn;
    if i > 0 { CountedInCases(cases[1..], i - 1, x); }
  }

  /** The lets of a body are those declared by statements of that body itself. */
  lemma {:induction false} LexNamesAre(body: seq<Stmt>, x: string)
    ensures x in LexNames(body) <==> exists i :: 0 <= i < |body| && body[i].VarDecl? && body[i].isLet && Lists(body[i].decls, x)
  {
    hide DeclNames, Lists;
    if body != [] {
      LexNamesAre(body[1..], x);
      if body[0].VarDecl? { DeclNamesAre(body[0].decls, x); }
      assert forall i :: 0 < i < |body| ==> body[i] == body[1..][i - 1];
      assert forall i :: 0 <= i < |body| - 1 ==> body[1..][i] == body[i + 1];
    }
  }

  // ---------- What the grammar gives ----------

  /** Numbers the compiler writes as int32 operands are int32, here and in every part. */
  predicate DeclsFit(ds: seq<Decl>) { forall i :: 0 <= i < |ds| ==> WfOpt(ds[i].init) }

  predicate IsLet(st: Stmt) { st.VarDecl? && st.isLet }

  /** Lets stand directly in the bodies of functions and blocks, or in for loops, and no case has one. */
  predicate Grammatical(st: Stmt)
    decreases st, 0
  {
    match st
    case ExprStmt(e) => WfE(e)
    case EmptyStmt | Break(_) | Continue(_) => true
    case VarDecl(_, ds) => DeclsFit(ds)
    case Block(body) => GrammaticalL(body)
    case If(t, a, b) => WfE(t) && Grammatical(a) && !IsLet(a) && (b.Some? ==> Grammatical(b.value) && !IsLet(b.value))
    case While(_, t, s) => WfE(t) && Grammatical(s) && !IsLet(s)
    case DoWhile(_, s, t) => WfE(t) && Grammatical(s) && !IsLet(s)
    case For(_, init, t, u, s) =>
      && WfOpt(t) && WfOpt(u) && Grammatical(s) && !IsLet(s)
      && (init.InitExpr? ==> WfE(init.e)) && (init.InitDecl? ==> DeclsFit(init.decls))
    case Switch(_, d, cases) =>
      && WfE(d)
      && (forall i :: 0 <= i < |cases| ==> WfOpt(cases[i].test) && GrammaticalL(cases[i].body))
      && (forall i, j :: 0 <= i < |cases| && 0 <= j < |cases[i].body| ==> !IsLet(cases[i].body[j]))
    case Return(a) => WfOpt(a)
    case Throw(e) => WfE(e)
  }

  predicate GrammaticalL(body: seq<Stmt>)
    decreases body, 1
  {
    forall i :: 0 <= i < |body| ==> Grammatical(body[i])
  }

  /** Every name declared in such a function is in scope where it is declared: what the compiler theorem asks. */
  lemma GrammaticalIsWf(f: Function)
    requires GrammaticalL(f.body) && JumpsL(f.body, [])
    ensures WfFunction(f)
  {
    hide VarNamesIn, LexNames, NamesOf, JumpsL, WfL;
    InL(f.body, NamesOf(f.params) + NamesOf(VarNamesIn(f.body)) + NamesOf(LexNames(f.body)));
  }

  lemma {:induction false} InS(st: Stmt, dom: set<string>)
    requires Grammatical(st) && NamesOf(VarNames(st)) <= dom
    requires IsLet(st) ==> NamesOf(DeclNames(st.decls)) <= dom
    ensures WfS(st, dom)
    decreases st, 0
  {
    hide WfE;
    match st {
      case VarDecl(isLet, ds) => InDecls(ds, dom);
      case Block(body) => InL(body, dom + NamesOf(LexNames(body)));
      case If(_, a, b) =>
        InS(a, dom);
        if b.Some? { InS(b.value, dom); }
      case While(_, _, s) => InS(s, dom);
      case DoWhile(_, s, _) => InS(s, dom);
      case For(_, init, _, _, s) =>
        var dom1 := dom + NamesOf(InitNames(init));
        if init.InitDecl? { InDecls(init.decls, dom1); }
        InS(s, dom1);
      case Switch(_, _, cases) => InCases(cases, dom);
      case _ =>
    }
  }

  lemma InDecls(ds: seq<Decl>, dom: set<string>)
    requires DeclsFit(ds) && NamesOf(DeclNames(ds)) <= dom
    ensures WfDecls(ds, dom)
  {
    hide WfOpt;
    forall i | 0 <= i < |ds| ensures ds[i].name in dom { assert DeclNames(ds)[i] == ds[i].name; }
  }

  lemma {:induction false} InL(body: seq<Stmt>, dom: set<string>)
    requires GrammaticalL(body) && NamesOf(VarNamesIn(body)) <= dom && NamesOf(LexNames(body)) <= dom
    ensures WfL(body, dom)
    decreases body, 1
  {
    hide Grammatical, WfS, VarNames;
    if body != [] {
      InS(body[0], dom);
      InL(body[1..], dom);
    }
  }

  lemma {:induction false} InCases(cases: seq<Case>, dom: set<string>)
    requires forall i :: 0 <= i < |cases| ==> GrammaticalL(cases[i].body)
    requires forall i, j :: 0 <= i < |cases| && 0 <= j < |cases[i].body| ==> !IsLet(cases[i].body[j])
    requires NamesOf(VarNamesOf(cases)) <= dom
    ensures WfCases(cases, dom)
    decreases cases, 2
  {
    hide GrammaticalL, WfL, VarNamesIn;
    if cases != [] {
      NoLets(cases[0].body);
      InL(cases[0].body, dom);
      InCases(cases[1..], dom);
    }
  }

  lemma {:induction false} NoLets(body: seq<Stmt>)
    requires forall j :: 0 <= j < |body| ==> !IsLet(body[j])
    ensures LexNames(body) == []
  {
    if body != [] { NoLets(body[1..]); }
  }
}
