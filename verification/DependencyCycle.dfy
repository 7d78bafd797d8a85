/**
 Runtime dependencies between registered repositories: the worklist search of
 check_dependency_cycle, and the saves it guards (app/main.py and
 app/services/repository_contract_editor.py).
 */
module DependencyCycle {
  import opened Wrappers

  // None for the dependencies means that the contract cannot be read.
  datatype Repository = Repository(enabled: bool, dependencies: Option<seq<string>>)

  type Registry = map<string, Repository>

  // The dependencies the search follows from a name.
  function Dependencies(reg: Registry, name: string): seq<string> {
    if name in reg && reg[name].enabled && reg[name].dependencies.Some? then reg[name].dependencies.value else []
  }

  // n dependencies lead from a to b.
  ghost predicate Leads(reg: Registry, a: string, b: string, n: nat)
    decreases n
  {
    if n == 0 then a == b else exists d :: d in Dependencies(reg, a) && Leads(reg, d, b, n - 1)
  }

  ghost predicate Reaches(reg: Registry, a: string, b: string) { exists n: nat :: Leads(reg, a, b, n) }

  ghost predicate AnyReaches(reg: Registry, names: seq<string>, b: string) {
    exists a :: a in names && Reaches(reg, a, b)
  }

  ghost predicate Acyclic(reg: Registry) { forall a, n: nat :: n > 0 ==> !Leads(reg, a, a, n) }

  lemma {:induction false} LeadsThrough(reg: Registry, a: string, b: string, c: string, m: nat, n: nat)
    requires Leads(reg, a, b, m) && Leads(reg, b, c, n)
    ensures Leads(reg, a, c, m + n)
    decreases m
  {
    if m > 0 {
      var d :| d in Dependencies(reg, a) && Leads(reg, d, b, m - 1);
      LeadsThrough(reg, d, b, c, m - 1, n);
    }
  }

  lemma LeadsOneMore(reg: Registry, a: string, d: string, b: string, n: nat)
    requires d in Dependencies(reg, a) && Leads(reg, d, b, n)
    ensures Leads(reg, a, b, n + 1)
  {
  }

  // ---------------------------------------------------------------- the search

  // Every dependency of a name already seen is seen, or still on the stack.
  ghost predicate Explored(reg: Registry, seen: set<string>, stack: seq<string>) {
    forall a, d :: a in seen && d in Dependencies(reg, a) ==> d in seen || d in stack
  }

  // A closed set keeps what it leads to inside.
  lemma {:induction false} ClosedSetContains(reg: Registry, seen: set<string>, a: string, b: string, n: nat)
    requires Explored(reg, seen, []) && a in seen && Leads(reg, a, b, n)
    ensures b in seen
    decreases n
  {
    if n > 0 {
      var d :| d in Dependencies(reg, a) && Leads(reg, d, b, n - 1);
      ClosedSetContains(reg, seen, d, b, n - 1);
    }
  }

  ghost predicate AllFromRoots(reg: Registry, names: seq<string>, stack: seq<string>) {
    forall x :: x in stack ==> exists a :: a in names && Reaches(reg, a, x)
  }

  lemma PushKeepsRoots(reg: Registry, names: seq<string>, rest: seq<string>, name: string)
    requires AllFromRoots(reg, names, rest) && AllFromRoots(reg, names, [name])
    ensures AllFromRoots(reg, names, rest + Dependencies(reg, name))
  {
    assert name in [name];
    var a :| a in names && Reaches(reg, a, name);
    var n: nat :| Leads(reg, a, name, n);
    forall d | d in Dependencies(reg, name) ensures Reaches(reg, a, d) {
      assert Leads(reg, d, d, 0);
      assert Leads(reg, name, d, 1);
      LeadsThrough(reg, a, name, d, n, 1);
    }
  }

  // What holds whenever the search takes the next name: nothing is lost, nothing is invented.
  ghost predicate Searching(reg: Registry, self: string, names: seq<string>, seen: set<string>, stack: seq<string>) {
    && self !in seen
    && (forall x :: x in names ==> x in seen || x in stack)
    && Explored(reg, seen, stack)
    && AllFromRoots(reg, names, stack)
  }

  lemma StartSearch(reg: Registry, self: string, names: seq<string>)
    ensures Searching(reg, self, names, {}, names)
  {
    forall x | x in names ensures Reaches(reg, x, x) { assert Leads(reg, x, x, 0); }
  }

  function Top(stack: seq<string>): string
    requires stack != []
  {
    stack[|stack| - 1]
  }

  function Below(stack: seq<string>): seq<string>
    requires stack != []
  {
    stack[..|stack| - 1]
  }

  lemma TopAndBelow(stack: seq<string>)
    requires stack != []
    ensures forall x :: x in stack <==> x in Below(stack) || x == Top(stack)
  {
    assert stack == Below(stack) + [Top(stack)];
  }

  lemma PopSelf(reg: Registry, self: string, names: seq<string>, seen: set<string>, stack: seq<string>)
    requires stack != [] && Searching(reg, self, names, seen, stack) && Top(stack) == self
    ensures AnyReaches(reg, names, self)
  {
    assert stack[|stack| - 1] in stack;
  }

  lemma PopSeen(reg: Registry, self: string, names: seq<string>, seen: set<string>, stack: seq<string>)
    requires stack != [] && Searching(reg, self, names, seen, stack) && Top(stack) in seen
    ensures Searching(reg, self, names, seen, Below(stack))
  {
    TopAndBelow(stack);
  }

  // How many registered names have not been seen; the search also ends when the stack shrinks.
  ghost function Unseen(reg: Registry, seen: set<string>): nat { |reg.Keys - seen| }

  // Only registered names bring new ones, and each is seen once.
  lemma SeeOne(reg: Registry, seen: set<string>, name: string)
    requires name !in seen
    ensures Unseen(reg, seen + {name}) < Unseen(reg, seen) ||
      (Unseen(reg, seen + {name}) == Unseen(reg, seen) && Dependencies(reg, name) == [])
  {
    if name in reg {
      assert reg.Keys - seen == (reg.Keys - (seen + {name})) + {name};
    } else {
      assert reg.Keys - (seen + {name}) == reg.Keys - seen;
    }
  }

  lemma PopNew(reg: Registry, self: string, names: seq<string>, seen: set<string>, stack: seq<string>)
    requires stack != [] && Searching(reg, self, names, seen, stack) && Top(stack) != self && Top(stack) !in seen
    ensures var seen', stack' := seen + {Top(stack)}, Below(stack) + Dependencies(reg, Top(stack));
      && Searching(reg, self, names, seen', stack')
      && (Unseen(reg, seen') < Unseen(reg, seen) || (Unseen(reg, seen') == Unseen(reg, seen) && |stack'| < |stack|))
  {
    var name, rest := Top(stack), Below(stack);
    TopAndBelow(stack);
    assert forall x :: x in rest + Dependencies(reg, name) <==> x in rest || x in Dependencies(reg, name);
    forall x | x in [name] ensures exists a :: a in names && Reaches(reg, a, x) {
      assert x in stack;
    }
    PushKeepsRoots(reg, names, rest, name);
    SeeOne(reg, seen, name);
  }

  lemma SearchedAll(reg: Registry, self: string, names: seq<string>, seen: set<string>)
    requires Searching(reg, self, names, seen, [])
    ensures !AnyReaches(reg, names, self)
  {
    forall a, n: nat | a in names ensures !Leads(reg, a, self, n) {
      if Leads(reg, a, self, n) { ClosedSetContains(reg, seen, a, self, n); }
    }
  }

  // MAIN: the search ends on every graph, and answers true exactly when some proposed dependency
  // reaches the repository.
  method CheckDependencyCycle(reg: Registry, self: string, names: seq<string>) returns (cycle: bool)
    ensures cycle <==> AnyReaches(reg, names, self)
  {
    var seen: set<string> := {};
    var stack := names;
    StartSearch(reg, self, names);
    while stack != []
      invariant Searching(reg, self, names, seen, stack)
      decreases Unseen(reg, seen), |stack|
    {
      var name := Top(stack);
      if name == self {
        PopSelf(reg, self, names, seen, stack);
        return true;
      }
      if name in seen {
        PopSeen(reg, self, names, seen, stack);
        stack := Below(stack);
      } else {
        PopNew(reg, self, names, seen, stack);
        seen, stack := seen + {name}, Below(stack) + Dependencies(reg, name);
      }
    }
    SearchedAll(reg, self, names, seen);
    cycle := false;
  }

  // ---------------------------------------------------------------- one repository's dependencies change

  // The registry without the dependencies of one repository.
  ghost function Cut(reg: Registry, self: string): Registry { reg[self := Repository(false, None)] }

  ghost function Updated(reg: Registry, self: string, names: seq<string>): Registry {
    reg[self := Repository(true, Some(names))]
  }

  // Only the dependencies of self differ.
  ghost predicate DifferAt(reg: Registry, reg': Registry, self: string) {
    forall a :: a != self ==> Dependencies(reg', a) == Dependencies(reg, a)
  }

  lemma {:induction false} CutLeads(reg: Registry, cut: Registry, self: string, a: string, b: string, n: nat)
    requires DifferAt(reg, cut, self) && Dependencies(cut, self) == [] && Leads(cut, a, b, n)
    ensures Leads(reg, a, b, n)
    decreases n
  {
    if n > 0 {
      var d :| d in Dependencies(cut, a) && Leads(cut, d, b, n - 1);
      CutLeads(reg, cut, self, d, b, n - 1);
    }
  }

  // A way through the graph either never follows a dependency of self, or comes to self first.
  lemma {:induction false} FirstVisit(reg: Registry, cut: Registry, self: string, a: string, b: string, n: nat)
    requires DifferAt(reg, cut, self) && Leads(reg, a, b, n)
    ensures Leads(cut, a, b, n) || exists i: nat :: i < n && Leads(cut, a, self, i) && Leads(reg, self, b, n - i)
    decreases n
  {
    if n > 0 {
      if a == self {
        assert Leads(cut, a, self, 0) && Leads(reg, self, b, n - 0);
      } else {
        var d :| d in Dependencies(reg, a) && Leads(reg, d, b, n - 1);
        FirstVisit(reg, cut, self, d, b, n - 1);
        if !Leads(cut, d, b, n - 1) {
          var i: nat :| i < n - 1 && Leads(cut, d, self, i) && Leads(reg, self, b, n - 1 - i);
          assert Leads(cut, a, self, i + 1) && Leads(reg, self, b, n - (i + 1));
        }
      }
    }
  }

  // Whether self is reached does not depend on self's own dependencies.
  lemma ReachesSelf(reg: Registry, reg': Registry, self: string, a: string)
    requires DifferAt(reg, reg', self) && Reaches(reg, a, self)
    ensures Reaches(reg', a, self)
  {
    var n: nat :| Leads(reg, a, self, n);
    FirstVisit(reg, reg', self, a, self, n);
  }

  lemma CutIsAcyclic(reg: Registry, self: string)
    requires Acyclic(reg)
    ensures Acyclic(Cut(reg, self))
  {
    forall a, n: nat | n > 0 && Leads(Cut(reg, self), a, a, n) ensures false {
      CutLeads(reg, Cut(reg, self), self, a, a, n);
    }
  }

  // A cycle through the new dependencies passes self, so some new dependency reaches self.
  lemma NewCycleReachesSelf(cut: Registry, reg': Registry, self: string, a: string, n: nat)
    requires DifferAt(reg', cut, self) && Acyclic(cut) && n > 0 && Leads(reg', a, a, n)
    ensures AnyReaches(cut, Dependencies(reg', self), self)
  {
    FirstVisit(reg', cut, self, a, a, n);
    var i: nat :| i < n && Leads(cut, a, self, i) && Leads(reg', self, a, n - i);
    var d :| d in Dependencies(reg', self) && Leads(reg', d, a, n - i - 1);
    FirstVisit(reg', cut, self, d, a, n - i - 1);
    if Leads(cut, d, a, n - i - 1) {
      LeadsThrough(cut, d, a, self, n - i - 1, i);
    }
    assert Reaches(cut, d, self);
  }

  // MAIN: giving a repository new dependencies keeps an acyclic graph acyclic if and only if none of
  // them reaches it, whatever its dependencies were before and whether it was registered or not.
  lemma UpdateKeepsAcyclic(reg: Registry, self: string, names: seq<string>)
    requires Acyclic(reg)
    ensures Acyclic(Updated(reg, self, names)) <==> !AnyReaches(reg, names, self)
  {
    var cut, reg' := Cut(reg, self), Updated(reg, self, names);
    CutIsAcyclic(reg, self);
    assert DifferAt(reg', cut, self) && DifferAt(cut, reg, self) && DifferAt(reg, reg', self);
    forall a, n: nat | n > 0 && Leads(reg', a, a, n) ensures AnyReaches(reg, names, self) {
      NewCycleReachesSelf(cut, reg', self, a, n);
      var d :| d in names && Reaches(cut, d, self);
      ReachesSelf(cut, reg, self, d);
    }
    forall d | d in names && Reaches(reg, d, self) ensures !Acyclic(reg') {
      ReachesSelf(reg, reg', self, d);
      var n: nat :| Leads(reg', d, self, n);
      assert Dependencies(reg', self) == names;
      LeadsOneMore(reg', self, d, self, n);
    }
  }

  // ---------------------------------------------------------------- saves

  datatype Save = Save(self: string, enabled: bool, names: seq<string>, otherErrors: bool)

  // validate: names of enabled repositories other than self, each once.
  predicate ValidNames(reg: Registry, self: string, names: seq<string>) {
    forall i :: 0 <= i < |names| ==>
      names[i] != self && names[i] in reg && reg[names[i]].enabled && forall j :: 0 <= j < i ==> names[j] != names[i]
  }

  // Every name is that of another repository, registered and enabled, and none is given twice.
  ghost predicate NamesAllowed(reg: Registry, self: string, names: seq<string>) {
    && (forall n :: n in names ==> n != self && n in reg && reg[n].enabled)
    && forall i, j :: 0 <= i < j < |names| ==> names[i] != names[j]
  }

  lemma ValidExactly(reg: Registry, self: string, names: seq<string>)
    ensures ValidNames(reg, self, names) <==> NamesAllowed(reg, self, names)
  {
    if NamesAllowed(reg, self, names) {
      forall i | 0 <= i < |names| ensures names[i] != self && names[i] in reg && reg[names[i]].enabled {
        assert names[i] in names;
      }
    }
  }

  // save_runtime_sandbox, accepted; a disabled sandbox keeps no dependencies.
  function Saved(reg: Registry, save: Save): Registry
    requires save.self in reg
  {
    reg[save.self := reg[save.self].(dependencies := Some(if save.enabled then save.names else []))]
  }

  method SaveRuntimeSandbox(reg: Registry, save: Save) returns (reg': Registry, accepted: bool)
    requires save.self in reg
    ensures accepted <==>
      !AnyReaches(reg, save.names, save.self) &&
      !(save.enabled && (save.otherErrors || !NamesAllowed(reg, save.self, save.names)))
    ensures reg' == if accepted then Saved(reg, save) else reg
  {
    ValidExactly(reg, save.self, save.names);
    var cycle := CheckDependencyCycle(reg, save.self, save.names);
    if cycle || (save.enabled && (save.otherErrors || !ValidNames(reg, save.self, save.names))) {
      return reg, false;
    }
    return Saved(reg, save), true;
  }

  // The registry after an accepted save follows from the one before it.
  ghost predicate Accepts(reg: Registry, save: Save, reg': Registry) {
    save.self in reg && !AnyReaches(reg, save.names, save.self) && reg' == Saved(reg, save)
  }

  lemma {:induction false} SameDependencies(reg: Registry, reg': Registry, a: string, b: string, n: nat)
    requires (forall x :: Dependencies(reg', x) == Dependencies(reg, x)) && Leads(reg', a, b, n)
    ensures Leads(reg, a, b, n)
    decreases n
  {
    if n > 0 {
      var d :| d in Dependencies(reg', a) && Leads(reg', d, b, n - 1);
      SameDependencies(reg, reg', d, b, n - 1);
    }
  }

  lemma SaveKeepsAcyclic(reg: Registry, save: Save, reg': Registry)
    requires Acyclic(reg) && Accepts(reg, save, reg')
    ensures Acyclic(reg')
  {
    var written := if save.enabled then save.names else [];
    var graph := if reg[save.self].enabled then Updated(reg, save.self, written) else reg;
    UpdateKeepsAcyclic(reg, save.self, written);
    assert !AnyReaches(reg, written, save.self);
    assert forall x :: Dependencies(reg', x) == Dependencies(graph, x);
    forall a, n: nat | n > 0 && Leads(reg', a, a, n) ensures false {
      SameDependencies(graph, reg', a, a, n);
    }
  }

  // MAIN: any sequence of accepted saves keeps an acyclic graph acyclic.
  lemma {:induction false} SavesKeepAcyclic(regs: seq<Registry>, saves: seq<Save>, k: nat)
    requires |regs| == |saves| + 1 && Acyclic(regs[0]) && k <= |saves|
    requires forall i :: 0 <= i < |saves| ==> Accepts(regs[i], saves[i], regs[i + 1])
    ensures Acyclic(regs[k])
  {
    if k > 0 {
      SavesKeepAcyclic(regs, saves, k - 1);
      assert Accepts(regs[k - 1], saves[k - 1], regs[k - 1 + 1]);
      SaveKeepsAcyclic(regs[k - 1], saves[k - 1], regs[k]);
    }
  }

  lemma DeadEnd(reg: Registry, a: string, b: string, n: nat)
    requires Dependencies(reg, a) == [] && n > 0
    ensures !Leads(reg, a, b, n)
  {
  }

  // Registering a repository runs no check: its contract can close a cycle through a name that was
  // not registered before.
  lemma RegisteringCanCloseCycle()
    ensures var reg := map["a" := Repository(true, Some(["b"]))];
      Acyclic(reg) && !Acyclic(Updated(reg, "b", ["a"]))
  {
    var reg := map["a" := Repository(true, Some(["b"]))];
    assert Dependencies(reg, "b") == [];
    forall x, n: nat | n > 0 ensures !Leads(reg, x, x, n) {
      if n > 1 { DeadEnd(reg, "b", x, n - 1); }
    }
    LeadsOneMore(reg, "a", "b", "b", 0);
    assert "a" in ["a"] && Reaches(reg, "a", "b");
    UpdateKeepsAcyclic(reg, "b", ["a"]);
  }
}
