/** Renaming the locals of a function that are C keywords: what it does to the syntax tree, and
    when it leaves every name bound as it was. */
module RenameTrees {

  const C_RESERVED: set<string> := {
    "auto", "break", "case", "char", "const", "continue", "default", "do",
    "double", "else", "enum", "extern", "float", "for", "goto", "if",
    "inline", "int", "long", "register", "restrict", "return", "short",
    "signed", "sizeof", "static", "struct", "switch", "typedef", "union",
    "unsigned", "void", "volatile", "while", "_Alignas", "_Alignof",
    "_Atomic", "_Bool", "_Complex", "_Generic", "_Imaginary", "_Noreturn",
    "_Static_assert", "_Thread_local"}

  const PREFIX := "sotlas_c_kw_"

  function SafeLocal(name: string): string {
    if name in C_RESERVED then PREFIX + name else name
  }

  // ---- trees -----------------------------------------------------------------

  /** What an expression is, apart from the name it uses and its operands. A name is a variable; a
      call has its callee's name and its arguments as operands. */
  datatype Shape =
    | NameExpr | CallExpr
    | LeafExpr(text: string) | UnaryExpr(op: string) | BinaryExpr(op: string) | IndexExpr | MemberExpr(field: string)
    | MethodCallExpr(method_: string) | UnsafeExpr | CastExpr(type_: string) | ArrayExpr | StructExpr(name: string, fields: seq<string>)
    | ConditionalExpr

  datatype Kind =
    | LetStmt | AssignStmt | ReturnStmt | ExpressionStmt | IfStmt | WhileStmt | LoopStmt | UnsafeStmt | ForStmt
    | DeferStmt | BreakStmt | ContinueStmt

  predicate UsesName(shape: Shape) {
    shape.NameExpr? || shape.CallExpr?
  }

  predicate BindsName(kind: Kind) {
    kind.LetStmt? || kind.ForStmt?
  }

  /** Operands in the order in which the renaming walks them. */
  datatype Tree = Tree(shape: Shape, name: string, kids: seq<Tree>)

  /** Expressions, then the bound name if there is one, then blocks: the order of the walk. */
  datatype Stmt = Stmt(kind: Kind, name: string, exprs: seq<Tree>, blocks: seq<Block>)

  datatype Block = Block(stmts: seq<Stmt>)

  datatype Function_ = Function_(params: seq<string>, body: seq<Stmt>)

  type Mapping = map<string, string>

  function App(m: Mapping, x: string): string {
    if x in m then m[x] else x
  }

  // ---- renaming --------------------------------------------------------------

  function Rename(t: Tree, m: Mapping): Tree {
    Tree(t.shape, if UsesName(t.shape) then App(m, t.name) else t.name, RenameAll(t.kids, m))
  }

  function RenameAll(ts: seq<Tree>, m: Mapping): (r: seq<Tree>)
    ensures |r| == |ts|
  {
    if ts == [] then [] else
      assert ts decreases to ts[0];
      [Rename(ts[0], m)] + RenameAll(ts[1..], m)
  }

  function RenameStmt(s: Stmt, m: Mapping): Stmt {
    Stmt(s.kind, if BindsName(s.kind) then App(m, s.name) else s.name, RenameAll(s.exprs, m), RenameBlocks(s.blocks, m))
  }

  function RenameBlock(ss: seq<Stmt>, m: Mapping): (r: seq<Stmt>)
    ensures |r| == |ss|
  {
    if ss == [] then [] else
      assert ss decreases to ss[0];
      [RenameStmt(ss[0], m)] + RenameBlock(ss[1..], m)
  }

  function RenameBlocks(bs: seq<Block>, m: Mapping): (r: seq<Block>)
    ensures |r| == |bs|
  {
    if bs == [] then [] else
      assert bs decreases to bs[0];
      [Block(RenameBlock(bs[0].stmts, m))] + RenameBlocks(bs[1..], m)
  }

  function RenameNames(names: seq<string>, m: Mapping): (r: seq<string>)
    ensures |r| == |names|
  {
    if names == [] then [] else [App(m, names[0])] + RenameNames(names[1..], m)
  }

  function LocalsOf(s: Stmt): set<string> {
    (if BindsName(s.kind) then {s.name} else {}) + LocalsOfBlocks(s.blocks)
  }

  function LocalsOfBlock(ss: seq<Stmt>): set<string> {
    if ss == [] then {} else
      assert ss decreases to ss[0];
      LocalsOf(ss[0]) + LocalsOfBlock(ss[1..])
  }

  function LocalsOfBlocks(bs: seq<Block>): set<string> {
    if bs == [] then {} else
      assert bs decreases to bs[0];
      LocalsOfBlock(bs[0].stmts) + LocalsOfBlocks(bs[1..])
  }

  function Elems(names: seq<string>): set<string> {
    set x | x in names
  }

  /** Parameters, let and for variables. */
  function Locals(f: Function_): set<string> {
    Elems(f.params) + LocalsOfBlock(f.body)
  }

  function MappingFor(names: set<string>): Mapping {
    map x | x in names && x in C_RESERVED :: SafeLocal(x)
  }

  function RenameFunction(f: Function_, m: Mapping): Function_ {
    Function_(RenameNames(f.params, m), RenameBlock(f.body, m))
  }

  function Sanitize(f: Function_): Function_ {
    var m := MappingFor(Locals(f));
    if m == map[] then f else RenameFunction(f, m)
  }

  // ---- no keyword is left, and doing it twice changes nothing -----------------

  /** New names are not keywords: no keyword starts with "so". */
  lemma SafeIsNotReserved(x: string)
    ensures SafeLocal(x) !in C_RESERVED
  {
    if x in C_RESERVED {
      var s := SafeLocal(x);
      assert s[0] == 's' && s[1] == 'o';
      forall w | w in C_RESERVED ensures !(|w| >= 2 && w[0] == 's' && w[1] == 'o') {}
    }
  }

  lemma {:induction false} RenamedNames(names: seq<string>, m: Mapping, y: string)
    ensures y in RenameNames(names, m) <==> exists x :: x in names && App(m, x) == y
    decreases |names|
  {
    if names != [] {
      RenamedNames(names[1..], m, y);
      assert forall x :: x in names <==> x == names[0] || x in names[1..];
    }
  }

  lemma {:induction false} RenamedLocals(s: Stmt, m: Mapping, y: string)
    ensures y in LocalsOf(RenameStmt(s, m)) <==> exists x :: x in LocalsOf(s) && App(m, x) == y
    decreases s
  {
    RenamedLocalsOfBlocks(s.blocks, m, y);
  }

  lemma {:induction false} RenamedLocalsOfBlock(ss: seq<Stmt>, m: Mapping, y: string)
    ensures y in LocalsOfBlock(RenameBlock(ss, m)) <==> exists x :: x in LocalsOfBlock(ss) && App(m, x) == y
    decreases ss
  {
    if ss != [] {
      assert ss decreases to ss[0];
      RenamedLocals(ss[0], m, y);
      RenamedLocalsOfBlock(ss[1..], m, y);
      assert RenameBlock(ss, m)[1..] == RenameBlock(ss[1..], m);
    }
  }

  lemma {:induction false} RenamedLocalsOfBlocks(bs: seq<Block>, m: Mapping, y: string)
    ensures y in LocalsOfBlocks(RenameBlocks(bs, m)) <==> exists x :: x in LocalsOfBlocks(bs) && App(m, x) == y
    decreases bs
  {
    if bs != [] {
      assert bs decreases to bs[0];
      RenamedLocalsOfBlock(bs[0].stmts, m, y);
      RenamedLocalsOfBlocks(bs[1..], m, y);
      assert RenameBlocks(bs, m)[1..] == RenameBlocks(bs[1..], m);
    }
  }

  /** The locals after sanitizing are the old ones, each under its safe name. */
  lemma SanitizedLocals(f: Function_, y: string)
    ensures y in Locals(Sanitize(f)) <==> exists x :: x in Locals(f) && SafeLocal(x) == y
  {
    var m := MappingFor(Locals(f));
    forall x | x in Locals(f) ensures App(m, x) == SafeLocal(x) {}
    if m == map[] {
      forall x | x in Locals(f) ensures SafeLocal(x) == x {
        assert x !in m;
      }
    } else {
      RenamedNames(f.params, m, y);
      RenamedLocalsOfBlock(f.body, m, y);
    }
  }

  /** No local of a sanitized function is a C keyword. */
  lemma SanitizedHasNoKeyword(f: Function_)
    ensures Locals(Sanitize(f)) !! C_RESERVED
  {
    forall y | y in Locals(Sanitize(f)) ensures y !in C_RESERVED {
      SanitizedLocals(f, y);
      var x :| x in Locals(f) && SafeLocal(x) == y;
      SafeIsNotReserved(x);
    }
  }

  /** The header and the C file are emitted from the same tree, which is sanitized each time. */
  lemma SanitizeIsIdempotent(f: Function_)
    ensures Sanitize(Sanitize(f)) == Sanitize(f)
  {
    SanitizedHasNoKeyword(f);
    assert MappingFor(Locals(Sanitize(f))) == map[];
  }
}
