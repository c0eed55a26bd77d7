/**
  The Babel plugin `importToVariablePlugin` of the live preview, as a pure rewrite of the
  top-level statements of a module.

  Babel visits the program and, through `path.replaceWith` / `replaceWithMultiple`, splices
  the replacement statements into the tree where the visited one stood.  Here a program is a
  sequence of top-level statements and that splice is sequence concatenation: every statement
  is replaced, in place and in order, by the statements `RewriteStatement` gives for it.

  The second half of the file states when the generated text is a valid function body (what
  `new Function("scope", ...)` accepts) and shows two inputs the plugin turns into text that
  is not, together with a corrected rewrite proved to produce valid text for every valid module
  without named exports.
*/
module ImportToVariable {
  import opened Base

  /** The three import specifier kinds the parser produces. */
  datatype Specifier =
    | Default(local: Name)                 // import local from "m"
    | Named(local: Name, imported: Name)   // import { imported as local } from "m"
    | Namespace(local: Name)               // import * as local from "m"

  /** A function definition; its parameters and body are never inspected by the plugin. */
  datatype FunctionDef = FunctionDef(id: Option<Name>, body: string)

  /** The expressions the plugin builds, plus every other expression as opaque text. */
  datatype Expr =
    | Ident(name: Name)
    | Member(obj: Expr, property: Name)      // obj.property, not computed
    | Assign(target: Expr, value: Expr)      // target = value
    | FunctionExpr(fn: FunctionDef)
    | Code(text: string)

  datatype Declarator = Declarator(id: Name, init: Expr)

  /** What follows `export default`: a function declaration, or anything else. */
  datatype Declaration = FunctionDecl(fn: FunctionDef) | ExprDecl(expr: Expr)

  /** Top-level statements; the last four are what the rewrite emits or leaves alone. */
  datatype Statement =
    | Import(specifiers: seq<Specifier>, source: string)
    | ExportDefault(declaration: Declaration)
    | ExportNamed(text: string)              // export const x = ..., export { x }
    | Const(declarators: seq<Declarator>)
    | FunctionStatement(fn: FunctionDef)
    | ExpressionStatement(expr: Expr)
    | Other(text: string)

  /** `scope.key`: a non-computed member lookup on the one parameter of the generated function. */
  function ScopeLookup(key: Name): Expr {
    Member(Ident("scope"), key)
  }

  /** The export slot `exports.default`. */
  const ExportsDefault: Expr := Member(Ident("exports"), "default")

  /** The identifier used for an anonymous default-exported function. */
  const AnonymousName: Name := "default"

  /** The `map` callback over the specifiers: a declarator, or `null` for any other kind. */
  function Declare(s: Specifier): (r: Option<Declarator>)
    ensures r.None? <==> s.Namespace?
    ensures r.Some? ==> r.value.id == s.local && r.value.init.Member? && r.value.init.obj == Ident("scope")
    ensures r.Some? ==> r.value.init.property == (if s.Named? then s.imported else s.local)
  {
    match s
    case Default(local) => Some(Declarator(local, ScopeLookup(local)))
    case Named(local, imported) => Some(Declarator(local, ScopeLookup(imported)))
    case Namespace(_) => None
  }

  function NamespaceCount(specs: seq<Specifier>): nat {
    if specs == [] then 0
    else (if specs[0].Namespace? then 1 else 0) + NamespaceCount(specs[1..])
  }

  /**
    The declarators of one import declaration (`specifiers.map(...).filter(Boolean)`): one per
    default or named specifier, binding the local name; a default specifier looks up its local
    name, a named one its imported name; namespace specifiers contribute nothing.
  */
  function ImportDeclarators(specs: seq<Specifier>): (r: seq<Declarator>)
    ensures |r| == |specs| - NamespaceCount(specs)
    ensures forall s :: s in specs && s.Default? ==> Declarator(s.local, ScopeLookup(s.local)) in r
    ensures forall s :: s in specs && s.Named? ==> Declarator(s.local, ScopeLookup(s.imported)) in r
    ensures forall d :: d in r ==>
      && d.init.Member? && d.init.obj == Ident("scope")
      && ((Default(d.id) in specs && d.init.property == d.id) || Named(d.id, d.init.property) in specs)
  {
    if specs == [] then []
    else
      var rest := ImportDeclarators(specs[1..]);
      assert forall s :: s in specs ==> s == specs[0] || s in specs[1..];
      match Declare(specs[0])
      case Some(d) => [d] + rest
      case None => rest
  }

  /** The declarators keep the order of their specifiers. */
  lemma {:induction false} ImportDeclaratorsAppend(a: seq<Specifier>, b: seq<Specifier>)
    ensures ImportDeclarators(a + b) == ImportDeclarators(a) + ImportDeclarators(b)
  {
    if a == [] {
      assert a + b == b;
    } else {
      assert (a + b)[0] == a[0];
      assert (a + b)[1..] == a[1..] + b;
      ImportDeclaratorsAppend(a[1..], b);
    }
  }

  /** Whether a statement is an assignment to `exports.default`. */
  predicate IsSlotWrite(s: Statement) {
    s.ExpressionStatement? && s.expr.Assign? && s.expr.target == ExportsDefault
  }

  /** The number of assignments to `exports.default` among the statements. */
  function SlotWrites(p: seq<Statement>): nat {
    if p == [] then 0 else (if IsSlotWrite(p[0]) then 1 else 0) + SlotWrites(p[1..])
  }

  /** The number of `export default` declarations among the statements. */
  function DefaultExports(p: seq<Statement>): nat {
    if p == [] then 0 else (if p[0].ExportDefault? then 1 else 0) + DefaultExports(p[1..])
  }

  /**
    `ExportDefaultDeclaration`: a function declaration is kept as it is and followed by
    `exports.default = <its name>` (the identifier `default` when it has none); any other
    declaration becomes the single statement `exports.default = <declaration>`.
  */
  function RewriteExportDefault(d: Declaration): (r: seq<Statement>)
    ensures |r| > 0 && IsSlotWrite(r[|r| - 1]) && SlotWrites(r) == 1
    ensures d.ExprDecl? ==> r == [ExpressionStatement(Assign(ExportsDefault, d.expr))]
    ensures d.FunctionDecl? ==>
      && |r| == 2 && r[0] == FunctionStatement(d.fn)
      && r[1].expr.value == Ident(if d.fn.id.Some? then d.fn.id.value else "default")
  {
    match d
    case FunctionDecl(fn) =>
      var r := [FunctionStatement(fn), ExpressionStatement(Assign(ExportsDefault, Ident(fn.id.GetOr(AnonymousName))))];
      assert r[1..] == [r[1]] && r[1..][1..] == [];
      assert SlotWrites(r[1..]) == 1;
      r
    case ExprDecl(e) =>
      var r := [ExpressionStatement(Assign(ExportsDefault, e))];
      assert r[1..] == [];
      r
  }

  /** The plugin's two visitors; every other statement is left where it is. */
  function RewriteStatement(s: Statement): (r: seq<Statement>)
    ensures forall t :: t in r ==> !t.Import? && !t.ExportDefault?
    ensures !s.Import? && !s.ExportDefault? ==> r == [s]
    ensures s.Import? ==> r == [Const(ImportDeclarators(s.specifiers))]
    ensures s.ExportDefault? ==> r == RewriteExportDefault(s.declaration)
  {
    match s
    case Import(specs, _) => [Const(ImportDeclarators(specs))]
    case ExportDefault(d) => RewriteExportDefault(d)
    case _ => [s]
  }

  /** The whole program after the plugin ran. */
  function Rewrite(program: seq<Statement>): (r: seq<Statement>)
    ensures forall t :: t in r ==> !t.Import? && !t.ExportDefault?
    ensures forall s :: s in program && !s.Import? && !s.ExportDefault? ==> s in r
  {
    if program == [] then []
    else
      assert forall s :: s in program ==> s == program[0] || s in program[1..];
      RewriteStatement(program[0]) + Rewrite(program[1..])
  }

  /** Rewriting is done statement by statement, in order. */
  lemma {:induction false} RewriteAppend(a: seq<Statement>, b: seq<Statement>)
    ensures Rewrite(a + b) == Rewrite(a) + Rewrite(b)
  {
    if a == [] {
      assert a + b == b;
    } else {
      assert (a + b)[0] == a[0];
      assert (a + b)[1..] == a[1..] + b;
      RewriteAppend(a[1..], b);
    }
  }

  /** A program without imports and default exports is left exactly as it is. */
  lemma {:induction false} RewriteKeepsPlainProgram(p: seq<Statement>)
    requires forall s :: s in p ==> !s.Import? && !s.ExportDefault?
    ensures Rewrite(p) == p
  {
    if p != [] {
      assert forall s :: s in p[1..] ==> s in p;
      RewriteKeepsPlainProgram(p[1..]);
    }
  }

  /** Running the plugin a second time changes nothing. */
  lemma RewriteIdempotent(p: seq<Statement>)
    ensures Rewrite(Rewrite(p)) == Rewrite(p)
  {
    RewriteKeepsPlainProgram(Rewrite(p));
  }

  lemma {:induction false} SlotWritesAppend(a: seq<Statement>, b: seq<Statement>)
    ensures SlotWrites(a + b) == SlotWrites(a) + SlotWrites(b)
  {
    if a == [] {
      assert a + b == b;
    } else {
      assert (a + b)[0] == a[0];
      assert (a + b)[1..] == a[1..] + b;
      SlotWritesAppend(a[1..], b);
    }
  }

  /**
    Every `export default` turns into exactly one assignment to `exports.default`, and no other
    statement gains or loses one.
  */
  lemma {:induction false} SlotWritesAfterRewrite(p: seq<Statement>)
    ensures SlotWrites(Rewrite(p)) == SlotWrites(p) + DefaultExports(p)
  {
    if p != [] {
      SlotWritesAfterRewrite(p[1..]);
      SlotWritesAppend(RewriteStatement(p[0]), Rewrite(p[1..]));
      match p[0]
      case Import(specs, _) =>
        assert SlotWrites(RewriteStatement(p[0])) == 0 by {
          assert RewriteStatement(p[0])[1..] == [];
        }
      case ExportDefault(_) =>
      case _ =>
        assert SlotWrites(RewriteStatement(p[0])) == SlotWrites([p[0]]) by {
          assert RewriteStatement(p[0]) == [p[0]];
        }
      }
  }

  /** A module with one `export default` and no hand-written slot assignment assigns the slot once. */
  lemma SingleDefaultExportAssignsSlotOnce(p: seq<Statement>)
    requires DefaultExports(p) == 1 && SlotWrites(p) == 0
    ensures SlotWrites(Rewrite(p)) == 1
  {
    SlotWritesAfterRewrite(p);
  }

  // ---------------------------------------------------------------------------------------
  // Validity of the generated function body.
  // ---------------------------------------------------------------------------------------

  /** The words JavaScript never accepts as a binding or variable reference in sloppy-mode code. */
  const ReservedWords: set<Name> := {
    "break", "case", "catch", "class", "const", "continue", "debugger", "default", "delete",
    "do", "else", "enum", "export", "extends", "false", "finally", "for", "function", "if",
    "import", "in", "instanceof", "new", "null", "return", "super", "switch", "this", "throw",
    "true", "try", "typeof", "var", "void", "while", "with"
  }

  predicate ValidBinding(n: Name) {
    n !in ReservedWords
  }

  /**
    The further words strict-mode code, and so every module, never accepts as a binding;
    `let` is also refused as the name of a `const` in any mode.
  */
  const StrictOnlyReservedWords: set<Name> := {
    "let", "static", "yield", "await", "implements", "interface", "package", "private",
    "protected", "public"
  }

  predicate ValidModuleBinding(n: Name) {
    n !in ReservedWords && n !in StrictOnlyReservedWords
  }

  /** An expression the parser accepts (a property name after `.` may be a reserved word). */
  predicate ValidExpr(e: Expr) {
    match e
    case Ident(n) => ValidBinding(n)
    case Member(o, _) => ValidExpr(o)
    case Assign(t, v) => ValidExpr(t) && ValidExpr(v)
    case FunctionExpr(fn) => fn.id.Some? ==> ValidBinding(fn.id.value)
    case Code(_) => true
  }

  /**
    A statement accepted inside a function body: `const` needs at least one declarator, a
    function declaration statement needs a name, and module syntax is not allowed at all.
  */
  predicate ValidScriptStatement(s: Statement) {
    match s
    case Const(ds) => |ds| > 0 && forall d :: d in ds ==> ValidBinding(d.id) && d.id != "let" && ValidExpr(d.init)
    case FunctionStatement(fn) => fn.id.Some? && ValidBinding(fn.id.value)
    case ExpressionStatement(e) => ValidExpr(e)
    case Other(_) => true
    case Import(_, _) => false
    case ExportDefault(_) => false
    case ExportNamed(_) => false
  }

  predicate ValidScript(p: seq<Statement>) {
    forall s :: s in p ==> ValidScriptStatement(s)
  }

  /** A statement accepted at the top level of a module. */
  predicate ValidModuleStatement(s: Statement) {
    match s
    case Import(specs, _) => forall sp :: sp in specs ==> ValidModuleBinding(sp.local)
    case ExportDefault(FunctionDecl(fn)) => fn.id.Some? ==> ValidModuleBinding(fn.id.value)
    case ExportDefault(ExprDecl(e)) => ValidExpr(e)
    case ExportNamed(_) => true
    case _ => ValidScriptStatement(s)
  }

  predicate ValidModule(p: seq<Statement>) {
    forall s :: s in p ==> ValidModuleStatement(s)
  }

  lemma {:induction false} AllNamespaceCount(specs: seq<Specifier>)
    requires forall s :: s in specs ==> s.Namespace?
    ensures NamespaceCount(specs) == |specs|
  {
    if specs != [] {
      assert forall s :: s in specs[1..] ==> s in specs;
      AllNamespaceCount(specs[1..]);
    }
  }

  /**
    As written: an import whose specifiers are all namespace imports (`import * as React from
    "react"`) becomes a `const` declaration with no declarator, which no parser accepts.
  */
  lemma NamespaceOnlyImportYieldsEmptyConst(specs: seq<Specifier>, source: string)
    requires forall s :: s in specs ==> s.Namespace? && ValidModuleBinding(s.local)
    ensures ValidModule([Import(specs, source)])
    ensures Rewrite([Import(specs, source)]) == [Const([])]
    ensures !ValidScript(Rewrite([Import(specs, source)]))
  {
    AllNamespaceCount(specs);
    assert [Import(specs, source)][1..] == [];
    assert !ValidScriptStatement(Rewrite([Import(specs, source)])[0]);
  }

  /**
    As written: an anonymous default-exported function becomes an unnamed function declaration
    statement followed by `exports.default = default`; neither line parses.
  */
  lemma AnonymousDefaultFunctionYieldsInvalidScript(fn: FunctionDef)
    requires fn.id.None?
    ensures ValidModule([ExportDefault(FunctionDecl(fn))])
    ensures !ValidScript(Rewrite([ExportDefault(FunctionDecl(fn))]))
  {
    assert [ExportDefault(FunctionDecl(fn))][1..] == [];
    var r := Rewrite([ExportDefault(FunctionDecl(fn))]);
    assert r[0] == FunctionStatement(fn) && !ValidScriptStatement(r[0]);
  }

  /**
    Corrected rewrite: an import that yields no declarator is removed instead of becoming an
    empty `const`, and an anonymous default-exported function is assigned to the slot as a
    function expression.  Where the plugin's output is already valid, the two agree.
  */
  function RewriteStatementFixed(s: Statement): (r: seq<Statement>)
    ensures forall t :: t in r ==> !t.Import? && !t.ExportDefault?
    ensures ValidScript(RewriteStatement(s)) ==> r == RewriteStatement(s)
    ensures s.ExportDefault? ==> |r| > 0 && IsSlotWrite(r[|r| - 1])
    ensures !s.Import? && !s.ExportDefault? ==> r == [s]
    ensures s.Import? && ImportDeclarators(s.specifiers) == [] ==> r == []
    ensures s.Import? && ImportDeclarators(s.specifiers) != [] ==> r == [Const(ImportDeclarators(s.specifiers))]
    ensures s.ExportDefault? && s.declaration.FunctionDecl? && s.declaration.fn.id.None? ==>
      r == [ExpressionStatement(Assign(ExportsDefault, FunctionExpr(s.declaration.fn)))]
  {
    match s
    case Import(specs, _) =>
      var ds := ImportDeclarators(specs);
      if ds == [] then
        assert !ValidScriptStatement(RewriteStatement(s)[0]);
        []
      else [Const(ds)]
    case ExportDefault(FunctionDecl(fn)) =>
      if fn.id.None? then
        assert !ValidScriptStatement(RewriteStatement(s)[0]);
        [ExpressionStatement(Assign(ExportsDefault, FunctionExpr(fn)))]
      else RewriteExportDefault(FunctionDecl(fn))
    case _ => RewriteStatement(s)
  }

  function RewriteFixed(program: seq<Statement>): (r: seq<Statement>)
    ensures forall t :: t in r ==> !t.Import? && !t.ExportDefault?
    ensures forall s :: s in program && !s.Import? && !s.ExportDefault? ==> s in r
  {
    if program == [] then []
    else
      assert forall s :: s in program ==> s == program[0] || s in program[1..];
      RewriteStatementFixed(program[0]) + RewriteFixed(program[1..])
  }

  lemma RewriteStatementFixedIsValid(s: Statement)
    requires ValidModuleStatement(s) && !s.ExportNamed?
    ensures ValidScript(RewriteStatementFixed(s))
  {
    match s
    case Import(specs, _) =>
      var ds := ImportDeclarators(specs);
      forall d | d in ds
        ensures ValidBinding(d.id) && d.id != "let" && ValidExpr(d.init)
      {
        assert Default(d.id) in specs || Named(d.id, d.init.property) in specs;
      }
    case ExportDefault(FunctionDecl(fn)) =>
      assert ValidExpr(ExportsDefault) by {
        assert "exports" !in ReservedWords;
      }
      if fn.id.Some? {
        var r := RewriteExportDefault(FunctionDecl(fn));
        assert r == [FunctionStatement(fn), ExpressionStatement(Assign(ExportsDefault, Ident(fn.id.value)))];
        assert ValidScriptStatement(r[0]) && ValidScriptStatement(r[1]);
      } else {
        var w := ExpressionStatement(Assign(ExportsDefault, FunctionExpr(fn)));
        assert RewriteStatementFixed(s) == [w];
        assert ValidExpr(FunctionExpr(fn));
        assert ValidScriptStatement(w);
      }
    case ExportDefault(ExprDecl(e)) =>
      assert ValidExpr(ExportsDefault) by {
        assert "exports" !in ReservedWords;
      }
      assert RewriteStatementFixed(s) == [ExpressionStatement(Assign(ExportsDefault, e))];
    case _ =>
  }

  /** The corrected rewrite turns every valid module without named exports into a valid body. */
  lemma {:induction false} RewriteFixedIsValidScript(p: seq<Statement>)
    requires ValidModule(p)
    requires forall s :: s in p ==> !s.ExportNamed?
    ensures ValidScript(RewriteFixed(p))
  {
    if p != [] {
      assert forall s :: s in p[1..] ==> s in p;
      RewriteStatementFixedIsValid(p[0]);
      RewriteFixedIsValidScript(p[1..]);
      var a, b := RewriteStatementFixed(p[0]), RewriteFixed(p[1..]);
      assert forall t :: t in a + b ==> t in a || t in b;
    }
  }
}
