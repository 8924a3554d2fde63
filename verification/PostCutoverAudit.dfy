/** The audit of what can be called after the firmware has been left behind. */
module PostCutoverAudit {

  /** One definition of a function: the forbidden words in its body, in order, and the names that it
      calls. Finding both in the text is left to the caller. */
  datatype Body = Body(path: string, forbidden: seq<string>, calls: set<string>)

  type Functions = map<string, seq<Body>>

  datatype Finding = Finding(path: string, name: string, word: string)

  datatype Report = Report(seen: set<string>, opaqueCalls: set<string>, violations: seq<Finding>)

  const ROOTS := ["sotlas_x86_post_cutover_entry", "sotlas_x86_irq_dispatch"]

  const KEYWORDS := {"if", "while", "for", "loop", "unsafe", "sizeof", "return", "match"}

  // ---- what can be called ----------------------------------------------------

  predicate Calls(fs: Functions, a: string, b: string) {
    a in fs && b !in KEYWORDS && exists body <- fs[a] :: b in body.calls
  }

  predicate IsCallPath(fs: Functions, p: seq<string>) {
    |p| > 0 && forall i :: 0 <= i < |p| - 1 ==> Calls(fs, p[i], p[i + 1])
  }

  predicate Leads(fs: Functions, p: seq<string>, a: string, b: string) {
    IsCallPath(fs, p) && p[0] == a && p[|p| - 1] == b
  }

  ghost predicate Reachable(fs: Functions, roots: seq<string>, b: string) {
    exists p, a :: a in roots && Leads(fs, p, a, b)
  }

  /** The words that an audit of these names has to report. */
  predicate IsFinding(fs: Functions, v: Finding) {
    v.name in fs && exists body <- fs[v.name] :: body.path == v.path && v.word in body.forbidden
  }

  lemma RootIsReachable(fs: Functions, roots: seq<string>, a: string)
    requires a in roots
    ensures Reachable(fs, roots, a)
  {
    assert Leads(fs, [a], a, a);
  }

  lemma CalleeIsReachable(fs: Functions, roots: seq<string>, b: string, c: string)
    requires Reachable(fs, roots, b) && Calls(fs, b, c)
    ensures Reachable(fs, roots, c)
  {
    var p, a :| a in roots && Leads(fs, p, a, b);
    assert Leads(fs, p + [c], a, c);
  }

  /** A set with the roots that is closed under calls holds everything reachable. */
  lemma {:induction false} ClosedHoldsPath(fs: Functions, seen: set<string>, p: seq<string>)
    requires IsCallPath(fs, p) && p[0] in seen
    requires forall a, b :: a in seen && Calls(fs, a, b) ==> b in seen
    ensures p[|p| - 1] in seen
    decreases |p|
  {
    if |p| > 1 {
      assert Calls(fs, p[0], p[1]);
      var q := p[1..];
      forall i | 0 <= i < |q| - 1 ensures Calls(fs, q[i], q[i + 1]) {
        assert Calls(fs, p[i + 1], p[i + 2]);
      }
      ClosedHoldsPath(fs, seen, q);
    }
  }

  // ---- the audit -------------------------------------------------------------

  function Elems(s: seq<string>): set<string> {
    set x | x in s
  }

  /** All names that can ever be pending. */
  ghost function Universe(fs: Functions, roots: seq<string>): set<string> {
    Elems(roots) + (set a, i, b | a in fs && 0 <= i < |fs[a]| && b in fs[a][i].calls :: b)
  }

  lemma CalledIsKnown(fs: Functions, roots: seq<string>, a: string, i: nat)
    requires a in fs && i < |fs[a]|
    ensures fs[a][i].calls <= Universe(fs, roots)
  {}

  method Listed(s: set<string>) returns (r: seq<string>)
    ensures Elems(r) == s
  {
    r := [];
    var rest := s;
    while rest != {}
      invariant Elems(r) + rest == s
      decreases |rest|
    {
      var x :| x in rest;
      assert Elems(r + [x]) == Elems(r) + {x};
      r := r + [x];
      rest := rest - {x};
    }
  }

  /** What has been found in the bodies of a function up to i. */
  ghost predicate Scanned(fs: Functions, name: string, i: nat, found: seq<Finding>)
    requires name in fs && i <= |fs[name]|
  {
    forall v :: v in found <==> v.name == name && exists k :: 0 <= k < i && fs[name][k].path == v.path && v.word in fs[name][k].forbidden
  }

  method Scan(fs: Functions, name: string) returns (found: seq<Finding>, called: seq<string>)
    requires name in fs
    ensures forall v :: v in found <==> v.name == name && IsFinding(fs, v)
    ensures forall b :: b in called <==> Calls(fs, name, b)
  {
    found, called := [], [];
    var i := 0;
    while i < |fs[name]|
      invariant 0 <= i <= |fs[name]|
      invariant Scanned(fs, name, i, found)
      invariant forall b :: b in called <==> b !in KEYWORDS && exists k :: 0 <= k < i && b in fs[name][k].calls
    {
      var body := fs[name][i];
      var more := Findings(body, name);
      found := found + more;
      var callees := Listed(body.calls - KEYWORDS);
      forall b ensures b in callees <==> b in body.calls - KEYWORDS { assert b in callees <==> b in Elems(callees); }
      called := called + callees;
      i := i + 1;
    }
    forall v ensures v in found <==> v.name == name && IsFinding(fs, v) {
      if v.name == name && IsFinding(fs, v) {
        var body :| body in fs[name] && body.path == v.path && v.word in body.forbidden;
        var k :| 0 <= k < |fs[name]| && fs[name][k] == body;
      }
    }
    forall b ensures b in called <==> Calls(fs, name, b) {
      if Calls(fs, name, b) {
        var body :| body in fs[name] && b in body.calls;
        var k :| 0 <= k < |fs[name]| && fs[name][k] == body;
      }
    }
  }

  method Findings(body: Body, name: string) returns (found: seq<Finding>)
    ensures forall v :: v in found <==> v.path == body.path && v.name == name && v.word in body.forbidden
  {
    found := [];
    for j := 0 to |body.forbidden|
      invariant forall v :: v in found <==> v.path == body.path && v.name == name && v.word in body.forbidden[..j]
    {
      assert body.forbidden[..j + 1] == body.forbidden[..j] + [body.forbidden[j]];
      found := found + [Finding(body.path, name, body.forbidden[j])];
    }
    assert body.forbidden[..|body.forbidden|] == body.forbidden;
  }

  /** What the worklist keeps. */
  ghost predicate Progress(fs: Functions, roots: seq<string>, pending: seq<string>, r: Report) {
    && (forall n :: n in r.seen || n in pending ==> n in Universe(fs, roots) && Reachable(fs, roots, n))
    && (forall n <- roots :: n in r.seen || n in pending)
    && (forall a, b :: a in r.seen && Calls(fs, a, b) ==> b in r.seen || b in pending)
    && (forall n :: n in r.opaqueCalls <==> n in r.seen && n !in fs)
    && (forall v :: v in r.violations <==> v.name in r.seen && IsFinding(fs, v))
  }

  lemma Begin(fs: Functions, roots: seq<string>)
    ensures Progress(fs, roots, roots, Report({}, {}, []))
  {
    forall n | n in roots ensures n in Universe(fs, roots) && Reachable(fs, roots, n) { RootIsReachable(fs, roots, n); }
  }

  lemma PopSeen(fs: Functions, roots: seq<string>, pending: seq<string>, name: string, r: Report)
    requires Progress(fs, roots, pending + [name], r) && name in r.seen
    ensures Progress(fs, roots, pending, r)
  {
    hide Universe, Calls, IsFinding, Reachable;
    assert forall n :: n in pending + [name] <==> n in pending || n == name;
  }

  lemma PopOpaque(fs: Functions, roots: seq<string>, pending: seq<string>, name: string, r: Report)
    requires Progress(fs, roots, pending + [name], r) && name !in fs
    ensures name in Universe(fs, roots)
    ensures Progress(fs, roots, pending, Report(r.seen + {name}, r.opaqueCalls + {name}, r.violations))
  {
    hide Universe, Reachable;
    assert forall n :: n in pending + [name] <==> n in pending || n == name;
    NothingCalled(fs, name);
  }

  lemma PopDefined(fs: Functions, roots: seq<string>, pending: seq<string>, name: string, r: Report, found: seq<Finding>, called: seq<string>)
    requires Progress(fs, roots, pending + [name], r) && name in fs
    requires forall v :: v in found <==> v.name == name && IsFinding(fs, v)
    requires forall b :: b in called <==> Calls(fs, name, b)
    ensures name in Universe(fs, roots)
    ensures Progress(fs, roots, pending + called, Report(r.seen + {name}, r.opaqueCalls, r.violations + found))
  {
    hide Universe, Calls, IsFinding, Reachable;
    assert forall n :: n in pending + [name] <==> n in pending || n == name;
    assert forall n :: n in pending + called <==> n in pending || n in called;
    forall b | b in called ensures b in Universe(fs, roots) && Reachable(fs, roots, b) {
      CalledIsInUniverse(fs, roots, name, b);
      CalleeIsReachable(fs, roots, name, b);
    }
  }

  /** Terminates on any call graph. The names seen are exactly the reachable ones, the opaque ones
      those without a definition, and what is reported are exactly the forbidden words in reachable
      bodies; so nothing is reported if and only if there are none. */
  method Audit(fs: Functions, roots: seq<string>) returns (r: Report)
    ensures forall n :: n in r.seen <==> Reachable(fs, roots, n)
    ensures forall n :: n in r.opaqueCalls <==> n in r.seen && n !in fs
    ensures forall v :: v in r.violations <==> v.name in r.seen && IsFinding(fs, v)
  {
    hide IsFinding, Calls, Leads, Reachable, Progress, Universe;
    var pending := roots;
    var seen: set<string>, opaqueCalls: set<string>, violations: seq<Finding> := {}, {}, [];
    ghost var universe := Universe(fs, roots);
    Begin(fs, roots);
    while pending != []
      invariant seen <= universe && Progress(fs, roots, pending, Report(seen, opaqueCalls, violations))
      decreases |universe - seen|, |pending|
    {
      var name := pending[|pending| - 1];
      ghost var before := pending;
      pending := pending[..|pending| - 1];
      assert before == pending + [name];
      if name in seen {
        PopSeen(fs, roots, pending, name, Report(seen, opaqueCalls, violations));
        continue;
      }
      ghost var was := Report(seen, opaqueCalls, violations);
      assert universe - seen == if name in universe then (universe - (seen + {name})) + {name} else universe - (seen + {name});
      seen := seen + {name};
      if name !in fs {
        PopOpaque(fs, roots, pending, name, was);
        opaqueCalls := opaqueCalls + {name};
        continue;
      }
      var found, called := Scan(fs, name);
      PopDefined(fs, roots, pending, name, was, found, called);
      violations := violations + found;
      pending := pending + called;
    }
    r := Report(seen, opaqueCalls, violations);
    Finished(fs, roots, r);
  }

  lemma Finished(fs: Functions, roots: seq<string>, r: Report)
    requires Progress(fs, roots, [], r)
    ensures forall n :: n in r.seen <==> Reachable(fs, roots, n)
    ensures forall n :: n in r.opaqueCalls <==> n in r.seen && n !in fs
    ensures forall v :: v in r.violations <==> v.name in r.seen && IsFinding(fs, v)
  {
    hide Universe, IsFinding;
    forall n ensures n in r.seen <==> Reachable(fs, roots, n) { SeenIsReachable(fs, roots, r.seen, n); }
  }

  lemma NothingCalled(fs: Functions, name: string)
    requires name !in fs
    ensures forall b :: !Calls(fs, name, b)
    ensures forall v: Finding :: v.name == name ==> !IsFinding(fs, v)
  {}

  lemma CalledIsInUniverse(fs: Functions, roots: seq<string>, a: string, b: string)
    requires Calls(fs, a, b)
    ensures b in Universe(fs, roots)
  {
    var body :| body in fs[a] && b in body.calls;
    var k :| 0 <= k < |fs[a]| && fs[a][k] == body;
    CalledIsKnown(fs, roots, a, k);
  }

  lemma SeenIsReachable(fs: Functions, roots: seq<string>, seen: set<string>, n: string)
    requires n in seen ==> Reachable(fs, roots, n)
    requires forall a <- roots :: a in seen
    requires forall a, b :: a in seen && Calls(fs, a, b) ==> b in seen
    ensures n in seen <==> Reachable(fs, roots, n)
  {
    if Reachable(fs, roots, n) {
      var p, a :| a in roots && Leads(fs, p, a, n);
      ClosedHoldsPath(fs, seen, p);
    }
  }
}
