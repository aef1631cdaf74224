/**
 A linker's own policy rules: kept pinned in the configured table, and withdrawn from a table the
 system stopped using only once that table no longer holds the system's default route.
 */
module LinkerRules {
  import opened PolicyRules

  /** One rule the system keeps: its selector, priority and table. Where the selector is the
      system's alone it owns every match; a mark is only a number, and others may use it too.
      `backend` is the gateway of the system's default route, 0 for none configured. */
  datatype Config = Config(sel: Selector, pref: int, table: int, ownAnyTable: bool, backend: int)

  function PinnedRule(c: Config): Rule { Rule(c.sel, c.pref, Lookup(c.table)) }

  /** The ownership test. */
  predicate Ours(c: Config, r: Rule) {
    r.sel == c.sel && r.action.Lookup? && (c.ownAnyTable || r.action.table == c.table || r.pref == c.pref)
  }

  function Strays(c: Config, rules: set<Rule>): set<Rule> {
    set r | r in rules && Ours(c, r) && r != PinnedRule(c)
  }

  /** Whether a rule of ours points at a table: the only evidence that table was ever ours. */
  ghost predicate Marked(c: Config, s: State, t: int) {
    exists r :: r in s.rules && Ours(c, r) && r.action.table == t
  }

  /** Whether a table holds the system's default route. */
  predicate HoldsDefault(c: Config, s: State, t: int) {
    c.backend != 0 && t in s.defaults && s.defaults[t] == c.backend
  }

  /** What every moment of a change keeps: nobody else's rule or route changes, no rule but the pinned
      one is added, and an abandoned table still holding the system's default still has one of its rules pointing at it. */
  ghost predicate Careful(c: Config, s: State, before: State) {
    && s.hosts == before.hosts
    && (forall r :: !Ours(c, r) ==> (r in s.rules <==> r in before.rules))
    && (forall r :: r in s.rules ==> r in before.rules || r == PinnedRule(c))
    && (forall t :: t in s.defaults ==> t in before.defaults && s.defaults[t] == before.defaults[t])
    && (forall t :: t in before.defaults && t !in s.defaults ==> HoldsDefault(c, before, t) && Marked(c, before, t))
    && (forall t :: t != c.table && HoldsDefault(c, s, t) && Marked(c, before, t) ==> Marked(c, s, t))
  }

  ghost predicate AllCareful(c: Config, s: State, past: seq<State>, before: State, was: seq<State>) {
    was <= past && Careful(c, s, before) && forall i :: |was| <= i < |past| ==> Careful(c, past[i], before)
  }

  lemma CarefulAtFirst(c: Config, s: State, was: seq<State>)
    ensures AllCareful(c, s, was, s, was)
  {}

  /** Whatever is refused and wherever it stops, an abandoned table with our default keeps its
      marker: what held before the pass holds at every moment of it. */
  lemma MarkerKept(c: Config, s: State, before: State)
    requires Careful(c, s, before)
    ensures forall r :: r in before.rules && r.sel == c.sel && r.action.Lookup? && r.action.table != c.table
                        && (c.ownAnyTable || r.pref == c.pref)
                        && r.action.table in s.defaults && s.defaults[r.action.table] == c.backend != 0 ==>
              exists q :: q in s.rules && q.sel == c.sel && q.action == r.action
                          && (c.ownAnyTable || q.pref == c.pref)
    ensures (forall t :: t != c.table && HoldsDefault(c, before, t) ==> Marked(c, before, t)) ==>
              forall t :: t != c.table && HoldsDefault(c, s, t) ==> Marked(c, s, t)
  {
    forall r | r in before.rules && r.sel == c.sel && r.action.Lookup? && r.action.table != c.table
               && (c.ownAnyTable || r.pref == c.pref)
               && r.action.table in s.defaults && s.defaults[r.action.table] == c.backend != 0
      ensures exists q :: q in s.rules && q.sel == c.sel && q.action == r.action && (c.ownAnyTable || q.pref == c.pref)
    {
      assert Ours(c, r) && Marked(c, before, r.action.table);
      assert HoldsDefault(c, s, r.action.table) && Marked(c, s, r.action.table);
    }
  }

  /** What a host's own rules and routes are promised: another selector's rule, a refusal, and, where the
      selector is not the system's alone, a rule that shares neither its table nor its priority, stand as
      they did; and a default route goes only if it goes through the backend, out of a table some rule of
      the selector that may be the system's points at. */
  ghost predicate SparesHost(c: Config, s: State, before: State) {
    && (forall r: Rule :: r.sel != c.sel || r.action.Unreachable? ==> (r in s.rules <==> r in before.rules))
    && (forall r: Rule :: r.action.Lookup? && r.action.table != c.table && r.pref != c.pref && !c.ownAnyTable ==>
          (r in s.rules <==> r in before.rules))
    && (forall t :: t in s.defaults ==> t in before.defaults && s.defaults[t] == before.defaults[t])
    && (forall t :: t in before.defaults && t !in s.defaults ==>
          && before.defaults[t] == c.backend != 0
          && exists r :: r in before.rules && r.sel == c.sel && r.action == Lookup(t)
                         && (c.ownAnyTable || t == c.table || r.pref == c.pref))
    && s.hosts == before.hosts
  }

  lemma CarefulSpares(c: Config, s: State, before: State)
    requires Careful(c, s, before)
    ensures SparesHost(c, s, before)
  {
    forall t | t in before.defaults && t !in s.defaults
      ensures exists r :: r in before.rules && r.sel == c.sel && r.action == Lookup(t)
                          && (c.ownAnyTable || t == c.table || r.pref == c.pref)
    {
      assert Marked(c, before, t);
    }
  }

  lemma AllSpared(c: Config, s: State, past: seq<State>, before: State, was: seq<State>)
    requires AllCareful(c, s, past, before, was)
    ensures SparesHost(c, s, before) && forall i :: |was| <= i < |past| ==> SparesHost(c, past[i], before)
  {
    hide Careful, SparesHost;
    CarefulSpares(c, s, before);
    forall i | |was| <= i < |past|
      ensures SparesHost(c, past[i], before)
    {
      CarefulSpares(c, past[i], before);
    }
  }

  lemma StrayGone(c: Config, s: State, before: State)
    requires s.rules == before.rules - Strays(c, before.rules) + {PinnedRule(c)}
    ensures OnlyPinned(c, s)
  {
    assert forall r :: r in s.rules && Ours(c, r) ==> r == PinnedRule(c);
  }

  /** Of the rules that may be the system's, only the pinned one is there. */
  ghost predicate OnlyPinned(c: Config, s: State) {
    && Rule(c.sel, c.pref, Lookup(c.table)) in s.rules
    && forall r :: r in s.rules && r.sel == c.sel && r.action.Lookup?
                   && (c.ownAnyTable || r.action.table == c.table || r.pref == c.pref) ==>
         r.pref == c.pref && r.action.table == c.table
  }

  /** No other table such a rule pointed at holds a default through the backend any more. */
  ghost predicate TablesLeft(c: Config, s: State, before: State) {
    forall r :: r in before.rules && r.sel == c.sel && r.action.Lookup? && r.action.table != c.table
                && (c.ownAnyTable || r.pref == c.pref) ==>
      !(c.backend != 0 && r.action.table in s.defaults && s.defaults[r.action.table] == c.backend)
  }

  // ---- the steps -------------------------------------------------------

  lemma AddPinned(c: Config, s: State, before: State)
    requires Careful(c, s, before)
    ensures Careful(c, Effect(s, AddRule(PinnedRule(c))), before)
  {
    var v := Effect(s, AddRule(PinnedRule(c)));
    assert Ours(c, PinnedRule(c));
    forall t | Marked(c, s, t)
      ensures Marked(c, v, t)
    {
      var r :| r in s.rules && Ours(c, r) && r.action.table == t;
      assert r in v.rules;
    }
  }

  lemma DropDefault(c: Config, s: State, before: State, t: int)
    requires Careful(c, s, before) && HoldsDefault(c, s, t) && Marked(c, before, t)
    ensures Careful(c, Effect(s, DelDefault(c.backend, t)), before)
  {
    var v := Effect(s, DelDefault(c.backend, t));
    assert forall u :: Marked(c, s, u) ==> Marked(c, v, u);
  }

  lemma DropRule(c: Config, s: State, before: State, r: Rule)
    requires Careful(c, s, before) && Ours(c, r)
    requires r.action.table != c.table ==> !HoldsDefault(c, s, r.action.table)
    ensures Careful(c, Effect(s, DelRule(r)), before)
  {
    var v := Effect(s, DelRule(r));
    forall t | t != c.table && HoldsDefault(c, v, t) && Marked(c, before, t)
      ensures Marked(c, v, t)
    {
      assert Marked(c, s, t);
      var q :| q in s.rules && Ours(c, q) && q.action.table == t;
      assert q in v.rules;
    }
  }

  /** One command, refused or not, that is careful if it takes effect. */
  method Try(k: Kernel, cmd: Command, denied: set<Command>, ghost c: Config, ghost before: State, ghost was: seq<State>)
    returns (ok: bool)
    requires AllCareful(c, k.state, k.past, before, was) && Careful(c, Effect(k.state, cmd), before)
    modifies k
    ensures AllCareful(c, k.state, k.past, before, was)
    ensures ok == (cmd !in denied && Possible(old(k.state), cmd))
    ensures k.state == if ok then Effect(old(k.state), cmd) else old(k.state)
    ensures k.past == old(k.past) + [k.state]
  {
    hide Careful, Effect, Possible;
    ok := k.Run(cmd, denied);
  }

  /** Relieves a table the system stopped using of its default route, and says whether the rule
      pointing at it may go. Answered from the kernel, never assumed. */
  method CleanAbandonedTable(k: Kernel, t: int, unreadable: set<int>, denied: set<Command>,
                             c: Config, ghost before: State, ghost was: seq<State>) returns (clean: bool)
    requires AllCareful(c, k.state, k.past, before, was) && Marked(c, before, t)
    modifies k
    ensures AllCareful(c, k.state, k.past, before, was)
    ensures k.state.rules == old(k.state.rules)
    ensures k.past == old(k.past) || k.past == old(k.past) + [k.state]
    ensures forall u :: HoldsDefault(c, k.state, u) ==> HoldsDefault(c, old(k.state), u)
    ensures clean ==> c.backend == 0 || t !in k.state.defaults || k.state.defaults[t] != c.backend
    ensures denied == {} && unreadable == {} ==> clean
  {
    hide Careful, Marked;
    if c.backend == 0 {
      return true;
    }
    if t in unreadable {
      return false;
    }
    if t !in k.state.defaults || k.state.defaults[t] != c.backend {
      return true;
    }
    DropDefault(c, k.state, before, t);
    clean := Try(k, DelDefault(c.backend, t), denied, c, before, was);
  }

  // ---- keeping the rule ------------------------------------------------

  /** The pinned rule is in before anything else of ours goes. */
  ghost predicate PinnedFirst(c: Config, past: seq<State>, before: State, was: seq<State>) {
    |was| <= |past| && forall i :: |was| <= i < |past| ==> past[i].rules == before.rules || PinnedRule(c) in past[i].rules
  }

  method EnsurePinnedRule(k: Kernel, c: Config, listed: bool, unreadable: set<int>, denied: set<Command>) returns (ok: bool)
    modifies k
    ensures AllCareful(c, k.state, k.past, old(k.state), old(k.past))
    ensures PinnedFirst(c, k.past, old(k.state), old(k.past))
    ensures SparesHost(c, k.state, old(k.state))
    ensures forall i :: |old(k.past)| <= i < |k.past| ==> SparesHost(c, k.past[i], old(k.state))
    ensures ok ==> Rule(c.sel, c.pref, Lookup(c.table)) in k.state.rules
    ensures !ok ==> k.state == old(k.state)
    ensures listed && denied == {} && unreadable == {} ==>
              ok && OnlyPinned(c, k.state) && TablesLeft(c, k.state, old(k.state))
    ensures listed && denied == {} && unreadable == {} ==>
              && ok && k.state.rules == old(k.state.rules) - Strays(c, old(k.state.rules)) + {PinnedRule(c)}
              && forall t :: t != c.table && Marked(c, old(k.state), t) ==> !HoldsDefault(c, k.state, t)
    ensures PinnedRule(c) in old(k.state.rules) && Strays(c, old(k.state.rules)) == {} ==>
              k.past == old(k.past) && k.state == old(k.state)
  {
    hide Careful, SparesHost, OnlyPinned, TablesLeft;
    ghost var before, was := k.state, k.past;
    CarefulAtFirst(c, before, was);
    AllSpared(c, k.state, k.past, before, was);
    if !listed {
      return false;
    }
    var strays := Strays(c, k.state.rules);
    if PinnedRule(c) !in k.state.rules {
      AddPinned(c, k.state, before);
      ok := Try(k, AddRule(PinnedRule(c)), denied, c, before, was);
      AllSpared(c, k.state, k.past, before, was);
      if !ok {
        return;
      }
    }
    ok := true;
    ghost var free := denied == {} && unreadable == {};
    RemoveStrays(k, strays, c, unreadable, denied, before, was, free);
    AllSpared(c, k.state, k.past, before, was);
    if free {
      Relieved(c, k.state, before);
      AllRelieved(c, k.state, before);
      StrayGone(c, k.state, before);
    }
  }

  lemma Relieved(c: Config, s: State, before: State)
    requires forall r :: r in Strays(c, before.rules) && r.action.table != c.table ==> !HoldsDefault(c, s, r.action.table)
    ensures forall t :: t != c.table && Marked(c, before, t) ==> !HoldsDefault(c, s, t)
  {
    forall t | t != c.table && Marked(c, before, t)
      ensures !HoldsDefault(c, s, t)
    {
      var r :| r in before.rules && Ours(c, r) && r.action.table == t;
      assert r in Strays(c, before.rules);
    }
  }

  /** The strays in turn, each only once its table is confirmed relieved. */
  method RemoveStrays(k: Kernel, strays: set<Rule>, c: Config, unreadable: set<int>, denied: set<Command>,
                      ghost before: State, ghost was: seq<State>, ghost free: bool)
    requires AllCareful(c, k.state, k.past, before, was) && PinnedFirst(c, k.past, before, was)
    requires strays == Strays(c, before.rules) && strays <= k.state.rules && PinnedRule(c) in k.state.rules
    requires k.state.rules <= before.rules + {PinnedRule(c)}
    requires free ==> denied == {} && unreadable == {}
    modifies k
    ensures AllCareful(c, k.state, k.past, before, was) && PinnedFirst(c, k.past, before, was)
    ensures PinnedRule(c) in k.state.rules
    ensures free ==> k.state.rules == old(k.state.rules) - strays
    ensures free ==> forall r :: r in strays && r.action.table != c.table ==> !HoldsDefault(c, k.state, r.action.table)
    ensures strays == {} ==> k.past == old(k.past) && k.state == old(k.state)
  {
    hide Careful, AllCareful;
    ghost var start, first := k.state, k.past;
    var todo := strays;
    while todo != {}
      invariant todo <= strays && todo <= k.state.rules && PinnedRule(c) in k.state.rules
      invariant AllCareful(c, k.state, k.past, before, was) && PinnedFirst(c, k.past, before, was)
      invariant free ==> k.state.rules == start.rules - (strays - todo)
      invariant free ==> forall r :: r in strays - todo && r.action.table != c.table ==>
                  !HoldsDefault(c, k.state, r.action.table)
      invariant strays == {} ==> k.past == first && k.state == start
      decreases todo
    {
      var r :| r in todo;
      RemoveStray(k, r, c, unreadable, denied, before, was, free);
      todo := todo - {r};
    }
  }

  method RemoveStray(k: Kernel, r: Rule, c: Config, unreadable: set<int>, denied: set<Command>,
                     ghost before: State, ghost was: seq<State>, ghost free: bool)
    requires AllCareful(c, k.state, k.past, before, was) && PinnedFirst(c, k.past, before, was)
    requires r in Strays(c, before.rules) && r in k.state.rules && PinnedRule(c) in k.state.rules
    requires free ==> denied == {} && unreadable == {}
    modifies k
    ensures AllCareful(c, k.state, k.past, before, was) && PinnedFirst(c, k.past, before, was)
    ensures old(k.state.rules) - {r} <= k.state.rules <= old(k.state.rules)
    ensures free ==> r !in k.state.rules && (r.action.table != c.table ==> !HoldsDefault(c, k.state, r.action.table))
    ensures forall u :: HoldsDefault(c, k.state, u) ==> HoldsDefault(c, old(k.state), u)
  {
    hide Careful;
    if r.action.table != c.table {
      assert Marked(c, before, r.action.table);
      var clean := CleanAbandonedTable(k, r.action.table, unreadable, denied, c, before, was);
      if !clean {
        return;
      }
    }
    DropRule(c, k.state, before, r);
    var _ := Try(k, DelRule(r), denied, c, before, was);
  }

  // ---- withdrawing the rule --------------------------------------------

  /** What a withdrawal may name: every match of the selector it owns. A configured table whose
      alias could not be read is not told apart from an abandoned one. */
  predicate Withdraws(c: Config, recognised: bool, r: Rule) {
    r.sel == c.sel && r.action.Lookup?
    && (c.ownAnyTable || (r.action.table == c.table && recognised) || r.pref == c.pref)
  }

  lemma WithdrawsOurs(c: Config, recognised: bool, r: Rule)
    requires Withdraws(c, recognised, r)
    ensures Ours(c, r)
  {}

  /** Withdraws the rule wherever it is found, under the same test and in the same order. When
      nothing of the kind was listed, a deletion by selector and table alone stands in. */
  method RemovePinnedRule(k: Kernel, c: Config, recognised: bool, listed: bool, unreadable: set<int>, denied: set<Command>)
    modifies k
    ensures AllCareful(c, k.state, k.past, old(k.state), old(k.past))
    ensures k.state.rules <= old(k.state.rules)
    ensures SparesHost(c, k.state, old(k.state))
    ensures forall i :: |old(k.past)| <= i < |k.past| ==> SparesHost(c, k.past[i], old(k.state))
    ensures listed && recognised && denied == {} && unreadable == {} ==>
              && TablesLeft(c, k.state, old(k.state))
              && forall r :: r in k.state.rules && r.sel == c.sel && r.action.Lookup? ==>
                   !c.ownAnyTable && r.action.table != c.table && r.pref != c.pref
    ensures listed && recognised && denied == {} && unreadable == {} ==>
              && (forall r :: r in k.state.rules <==> r in old(k.state.rules) && !Ours(c, r))
              && forall t :: t != c.table && Marked(c, old(k.state), t) ==> !HoldsDefault(c, k.state, t)
  {
    hide Careful, AllCareful, SparesHost, TablesLeft;
    ghost var before, was := k.state, k.past;
    CarefulAtFirst(c, before, was);
    var found: set<Rule> := {};
    ghost var free := denied == {} && unreadable == {};
    if listed {
      found := set r | r in k.state.rules && Withdraws(c, recognised, r);
      var todo := found;
      while todo != {}
        invariant todo <= found && todo <= k.state.rules <= before.rules
        invariant AllCareful(c, k.state, k.past, before, was)
        invariant free ==> k.state.rules == before.rules - (found - todo)
        invariant free && recognised ==> forall r :: r in found - todo && r.action.table != c.table ==>
                    !HoldsDefault(c, k.state, r.action.table)
        decreases todo
      {
        var r :| r in todo;
        WithdrawsOurs(c, recognised, r);
        WithdrawOne(k, r, c, recognised, unreadable, denied, before, was, free);
        todo := todo - {r};
      }
    }
    if found == {} {
      Backstop(k, c, denied, before, was);
    }
    AllSpared(c, k.state, k.past, before, was);
    if listed && recognised && free {
      assert forall r :: r in before.rules ==> (Ours(c, r) <==> r in found);
      forall t | t != c.table && Marked(c, before, t)
        ensures !HoldsDefault(c, k.state, t)
      {
        var r :| r in before.rules && Ours(c, r) && r.action.table == t;
        assert r in found;
      }
      AllRelieved(c, k.state, before);
    }
  }

  lemma AllRelieved(c: Config, s: State, before: State)
    requires forall t :: t != c.table && Marked(c, before, t) ==> !HoldsDefault(c, s, t)
    ensures TablesLeft(c, s, before)
  {
    forall r | r in before.rules && r.sel == c.sel && r.action.Lookup? && r.action.table != c.table
               && (c.ownAnyTable || r.pref == c.pref)
      ensures !(c.backend != 0 && r.action.table in s.defaults && s.defaults[r.action.table] == c.backend)
    {
      assert Ours(c, r) && Marked(c, before, r.action.table) && !HoldsDefault(c, s, r.action.table);
    }
  }

  method WithdrawOne(k: Kernel, r: Rule, c: Config, recognised: bool, unreadable: set<int>, denied: set<Command>,
                     ghost before: State, ghost was: seq<State>, ghost free: bool)
    requires AllCareful(c, k.state, k.past, before, was) && Ours(c, r) && r in before.rules && r in k.state.rules
    requires free ==> denied == {} && unreadable == {}
    modifies k
    ensures AllCareful(c, k.state, k.past, before, was)
    ensures old(k.state.rules) - {r} <= k.state.rules <= old(k.state.rules)
    ensures free ==> r !in k.state.rules
    ensures free && recognised && r.action.table != c.table ==> !HoldsDefault(c, k.state, r.action.table)
    ensures forall u :: HoldsDefault(c, k.state, u) ==> HoldsDefault(c, old(k.state), u)
  {
    hide Careful;
    if r.action.table != c.table || !recognised {
      assert Marked(c, before, r.action.table);
      var clean := CleanAbandonedTable(k, r.action.table, unreadable, denied, c, before, was);
      if !clean {
        return;
      }
    }
    DropRule(c, k.state, before, r);
    var _ := Try(k, DelRule(r), denied, c, before, was);
  }

  /** A deletion by selector and table alone: whichever match the kernel picks. */
  method Backstop(k: Kernel, c: Config, denied: set<Command>, ghost before: State, ghost was: seq<State>)
    requires AllCareful(c, k.state, k.past, before, was)
    modifies k
    ensures AllCareful(c, k.state, k.past, before, was)
    ensures k.state.rules <= old(k.state.rules) && k.state.defaults == old(k.state.defaults)
    ensures (forall r :: r in old(k.state.rules) ==> !Ours(c, r)) ==> k.state == old(k.state)
  {
    hide Careful;
    var matches := set r | r in k.state.rules && r.sel == c.sel && r.action == Lookup(c.table);
    if matches != {} {
      var r :| r in matches;
      DropRule(c, k.state, before, r);
      var _ := Try(k, DelRule(r), denied, c, before, was);
    }
  }

  // ---- over the life of a host -----------------------------------------

  /** One kind of rule the system keeps, whatever table is configured. */
  datatype Kind = Kind(sel: Selector, pref: int, ownAnyTable: bool)

  /** What a process is started with: its rules share one table and one backend. */
  datatype Setup = Setup(kinds: set<Kind>, table: int, backend: int)

  const RULE_BASE: int := 32400
  const RETURN_MARK: int := 0x201
  const EGRESS_MARK: int := 0x301

  /** The linker's three: by its overlay address, by the return mark and by the egress mark. */
  function LinkerKinds(address: int): set<Kind> {
    {Kind(From(address), RULE_BASE, true), Kind(Mark(RETURN_MARK), RULE_BASE + 1, false),
     Kind(Mark(EGRESS_MARK), RULE_BASE + 2, false)}
  }

  function ConfigOf(n: Setup, k: Kind): Config { Config(k.sel, k.pref, n.table, k.ownAnyTable, n.backend) }

  /** The setup in use, the kernel under it, and the tables whose default route the system put there,
      by whichever backend. */
  datatype World = World(n: Setup, s: State, put: set<int>)

  /** A pass of keeping or withdrawing one of the rules, whole, refused or cut short after any command;
      the route put into the configured table, which is done whatever became of the rules; a default
      lost to the kernel or replaced by the host; and a start under another setup. */
  datatype Step =
    | Pass(kind: Kind, reached: State)
    | InstallRoute(ok: bool)
    | LoseRoute(table: int)
    | HostRoute(table: int, via: int)
    | Change(setup: Setup)

  ghost predicate Enabled(w: World, step: Step) {
    match step
    case Pass(k, v) => k in w.n.kinds && Careful(ConfigOf(w.n, k), v, w.s)
    case InstallRoute(ok) => ok ==> w.n.backend != 0
    case LoseRoute(_) => true
    case HostRoute(_, _) => true
    case Change(_) => true
  }

  function Next(w: World, step: Step): World {
    match step
    case Pass(_, v) => w.(s := v)
    case InstallRoute(ok) =>
      if ok then w.(s := w.s.(defaults := w.s.defaults[w.n.table := w.n.backend]), put := w.put + {w.n.table})
      else w
    case LoseRoute(t) => w.(s := w.s.(defaults := w.s.defaults - {t}), put := w.put - {t})
    case HostRoute(t, via) => w.(s := w.s.(defaults := w.s.defaults[t := via]), put := w.put - {t})
    case Change(n) => w.(n := n)
  }

  ghost predicate Run(ws: seq<World>, steps: seq<Step>) {
    |ws| == |steps| + 1
    && forall i :: 0 <= i < |steps| ==> Enabled(ws[i], steps[i]) && ws[i + 1] == Next(ws[i], steps[i])
  }

  /** A rule of any of the kinds points at the table. */
  ghost predicate MarkedBy(n: Setup, s: State, t: int) { exists k :: k in n.kinds && Marked(ConfigOf(n, k), s, t) }

  /** The table still holds a default the system put there. */
  predicate Holds(w: World, t: int) { t in w.put && t in w.s.defaults }

  /** The default there is one a pass under this setup takes for the system's. */
  predicate Recognised(n: Setup, s: State, t: int) { n.backend != 0 && t in s.defaults && s.defaults[t] == n.backend }

  /** A pass under the setup can still find the system's default in the table. */
  ghost predicate Findable(w: World, t: int) { Recognised(w.n, w.s, t) && MarkedBy(w.n, w.s, t) }

  /** Every abandoned table holding a default of the system's has a rule pointing at it, and the
      default is recognised. */
  ghost predicate AllFindable(w: World) {
    forall t :: t != w.n.table && Holds(w, t) ==> Findable(w, t)
  }

  /** What a change of setup depends on. The table left behind, if it holds a default of the system's,
      has one the new backend recognises and a rule told for the system's from outside it. Nothing was
      abandoned earlier and not yet relieved, if the backend changes. And if a kind of rule is given
      up, what was abandoned earlier has a rule of a kind that is not. */
  ghost predicate LeavesCleanly(w: World, n: Setup) {
    && (n.table != w.n.table && Holds(w, w.n.table) ==> Recognised(n, w.s, w.n.table) && MarkedBy(n, w.s, w.n.table))
    && (n.backend != w.n.backend ==> forall t :: t != w.n.table && t != n.table ==> !Holds(w, t))
    && (!(w.n.kinds <= n.kinds) ==>
          forall t :: t != w.n.table && t != n.table && Holds(w, t) ==> MarkedBy(n, w.s, t))
  }

  /** The markers of tables abandoned earlier survive a change that gives up no kind of rule. */
  lemma MarkersSurvive(w: World, n: Setup, other: int)
    requires MarkedBy(w.n, w.s, other) && other != w.n.table && w.n.kinds <= n.kinds
    ensures MarkedBy(n, w.s, other)
  {
    var k :| k in w.n.kinds && Marked(ConfigOf(w.n, k), w.s, other);
    var r :| r in w.s.rules && Ours(ConfigOf(w.n, k), r) && r.action.table == other;
    assert Ours(ConfigOf(n, k), r);
    assert Marked(ConfigOf(n, k), w.s, other);
  }

  /** With any one of the rules pinned in the old table, and its default the present backend's, a change
      of table alone leaves it cleanly. */
  lemma OldPinMarks(w: World, k: Kind, t: int)
    requires k in w.n.kinds && PinnedRule(ConfigOf(w.n, k)) in w.s.rules
    requires Holds(w, w.n.table) ==> Recognised(w.n, w.s, w.n.table)
    ensures LeavesCleanly(w, w.n.(table := t))
  {
    var n := w.n.(table := t);
    assert Ours(ConfigOf(n, k), PinnedRule(ConfigOf(w.n, k)));
    assert Marked(ConfigOf(n, k), w.s, w.n.table);
  }

  /** For the linker a kind is given up exactly when its overlay address changes, and its two mark rules,
      wherever they were pinned, stay markers all the same. */
  lemma AddressChange(a: int, b: int, s: State, table: int, backend: int, t: int)
    ensures LinkerKinds(a) <= LinkerKinds(b) <==> a == b
    ensures Rule(Mark(RETURN_MARK), RULE_BASE + 1, Lookup(t)) in s.rules
            || Rule(Mark(EGRESS_MARK), RULE_BASE + 2, Lookup(t)) in s.rules
            ==> MarkedBy(Setup(LinkerKinds(b), table, backend), s, t)
  {
    assert Kind(From(a), RULE_BASE, true) in LinkerKinds(a);
    var n := Setup(LinkerKinds(b), table, backend);
    var reply, egress := Kind(Mark(RETURN_MARK), RULE_BASE + 1, false), Kind(Mark(EGRESS_MARK), RULE_BASE + 2, false);
    assert reply in n.kinds && egress in n.kinds;
    if Rule(Mark(RETURN_MARK), RULE_BASE + 1, Lookup(t)) in s.rules {
      assert Ours(ConfigOf(n, reply), Rule(Mark(RETURN_MARK), RULE_BASE + 1, Lookup(t)));
      assert Marked(ConfigOf(n, reply), s, t);
    }
    if Rule(Mark(EGRESS_MARK), RULE_BASE + 2, Lookup(t)) in s.rules {
      assert Ours(ConfigOf(n, egress), Rule(Mark(EGRESS_MARK), RULE_BASE + 2, Lookup(t)));
      assert Marked(ConfigOf(n, egress), s, t);
    }
  }

  /** A change of setup keeps everything abandoned within reach exactly when it leaves cleanly. */
  lemma ChangeExact(w: World, n: Setup)
    requires AllFindable(w)
    ensures AllFindable(Next(w, Change(n))) <==> LeavesCleanly(w, n)
  {
    hide MarkedBy;
    var v := Next(w, Change(n));
    assert forall t :: Holds(v, t) <==> Holds(w, t);
    if LeavesCleanly(w, n) {
      forall t | t != n.table && Holds(v, t)
        ensures Findable(v, t)
      {
        if t != w.n.table {
          assert Findable(w, t);
          if w.n.kinds <= n.kinds {
            MarkersSurvive(w, n, t);
          }
        }
      }
    }
    if AllFindable(v) {
      forall t | t != w.n.table && t != n.table && Holds(w, t)
        ensures n.backend == w.n.backend && MarkedBy(n, w.s, t)
      {
        assert Findable(w, t) && Findable(v, t);
      }
    }
  }

  lemma PassKeeps(w: World, k: Kind, reached: State, t: int)
    requires k in w.n.kinds && Careful(ConfigOf(w.n, k), reached, w.s)
    requires t != w.n.table && Findable(w, t) && t in reached.defaults
    ensures Findable(w.(s := reached), t)
  {
    var c := ConfigOf(w.n, k);
    var q :| q in w.n.kinds && Marked(ConfigOf(w.n, q), w.s, t);
    var r :| r in w.s.rules && Ours(ConfigOf(w.n, q), r) && r.action.table == t;
    if Ours(c, r) {
      assert Marked(c, w.s, t) && HoldsDefault(c, reached, t);
      assert Marked(c, reached, t);
    } else {
      assert r in reached.rules;
      assert Marked(ConfigOf(w.n, q), reached, t);
    }
  }

  lemma StepKeeps(w: World, step: Step)
    requires AllFindable(w) && Enabled(w, step) && !step.Change?
    ensures AllFindable(Next(w, step))
  {
    hide Marked, Ours;
    var v := Next(w, step);
    forall t | t != v.n.table && Holds(v, t)
      ensures Findable(v, t)
    {
      assert Holds(w, t);
      if step.Pass? {
        PassKeeps(w, step.kind, step.reached, t);
      } else {
        SameMarks(w.n, w.s, v.s, t);
      }
    }
  }

  lemma SameMarks(n: Setup, s: State, v: State, t: int)
    requires s.rules == v.rules
    ensures MarkedBy(n, s, t) <==> MarkedBy(n, v, t)
  {
    assert forall k :: Marked(ConfigOf(n, k), s, t) <==> Marked(ConfigOf(n, k), v, t);
  }

  /** Over the whole life of a host - passes for any of the rules, refused or cut short anywhere, routes
      put in, lost or replaced by the host, setups changed and changed back - every abandoned table
      holding a default of the system's stays within reach of a later pass, if and only if it starts so
      and every change of setup leaves cleanly. */
  lemma NeverOrphaned(ws: seq<World>, steps: seq<Step>)
    requires Run(ws, steps)
    ensures (forall i :: 0 <= i < |ws| ==> AllFindable(ws[i]))
            <==> AllFindable(ws[0])
                 && forall i :: 0 <= i < |steps| && steps[i].Change? ==> LeavesCleanly(ws[i], steps[i].setup)
  {
    hide AllFindable, LeavesCleanly, Enabled, Next;
    if AllFindable(ws[0]) && forall i :: 0 <= i < |steps| && steps[i].Change? ==> LeavesCleanly(ws[i], steps[i].setup) {
      forall i | 0 <= i < |ws|
        ensures AllFindable(ws[i])
      {
        FindableThrough(ws, steps, i);
      }
    }
    if forall i :: 0 <= i < |ws| ==> AllFindable(ws[i]) {
      forall i | 0 <= i < |steps| && steps[i].Change?
        ensures LeavesCleanly(ws[i], steps[i].setup)
      {
        assert AllFindable(ws[i]) && AllFindable(ws[i + 1]);
        ChangeExact(ws[i], steps[i].setup);
      }
    }
  }

  lemma {:induction false} FindableThrough(ws: seq<World>, steps: seq<Step>, i: nat)
    requires Run(ws, steps) && i < |ws| && AllFindable(ws[0])
    requires forall k :: 0 <= k < |steps| && steps[k].Change? ==> LeavesCleanly(ws[k], steps[k].setup)
    ensures AllFindable(ws[i])
  {
    hide AllFindable, LeavesCleanly, Enabled, Next;
    if i > 0 {
      FindableThrough(ws, steps, i - 1);
      if steps[i - 1].Change? {
        ChangeExact(ws[i - 1], steps[i - 1].setup);
      } else {
        StepKeeps(ws[i - 1], steps[i - 1]);
      }
    }
  }

  /** A host the system has put nothing on starts so. */
  lemma FreshIsFindable(w: World)
    requires w.put == {}
    ensures AllFindable(w)
  {}

  // ---- how it fails ----------------------------------------------------

  /** A route the system put into a table it has left, out of reach of every pass. */
  ghost predicate Orphaned(w: World, t: int) { t != w.n.table && Holds(w, t) && !Findable(w, t) }

  /** From any host where none of the rules got in, of the old kinds or the new: a rule is refused, the
      route goes in all the same, and the table is changed. */
  lemma RefusedThenMoved(w: World, k: Kind, n: Setup) returns (ws: seq<World>, steps: seq<Step>)
    requires k in w.n.kinds && w.n.backend != 0 && n.table != w.n.table
    requires forall r, q :: r in w.s.rules && q in w.n.kinds + n.kinds ==> r.sel != q.sel
    ensures Run(ws, steps) && ws[0] == w && steps == [Pass(k, w.s), InstallRoute(true), Change(n)]
    ensures Orphaned(ws[3], w.n.table) && !MarkedBy(n, ws[3].s, w.n.table)
  {
    steps := [Pass(k, w.s), InstallRoute(true), Change(n)];
    CarefulAtFirst(ConfigOf(w.n, k), w.s, []);
    var w2 := Next(w, InstallRoute(true));
    ws := [w, w, w2, Next(w2, Change(n))];
    hide Careful;
    forall i | 0 <= i < |steps|
      ensures Enabled(ws[i], steps[i]) && ws[i + 1] == Next(ws[i], steps[i])
    {
    }
  }

  /** What a whole pass of `EnsurePinnedRule` leaves of the rules. */
  function Kept(c: Config, rules: set<Rule>): set<Rule> { rules - Strays(c, rules) + {PinnedRule(c)} }

  /** From any host whose route and one pinned rule are in: the backend is changed along with the table.
      The old rule still marks the old table, but the default there is no longer recognised, so the
      next whole pass withdraws the marker and leaves the route. */
  lemma MovedWithBackend(w: World, k: Kind, n: Setup) returns (ws: seq<World>, steps: seq<Step>)
    requires k in w.n.kinds && n.kinds == w.n.kinds && n.table != w.n.table && Holds(w, w.n.table)
    requires n.backend != w.s.defaults[w.n.table]
    requires PinnedRule(ConfigOf(w.n, k)) in w.s.rules
    requires forall r, q :: r in w.s.rules && q in n.kinds && r.sel == q.sel ==> r == PinnedRule(ConfigOf(w.n, k))
    ensures Run(ws, steps) && ws[0] == w
    ensures steps == [Change(n), Pass(k, w.s.(rules := Kept(ConfigOf(n, k), w.s.rules)))]
    ensures MarkedBy(n, ws[1].s, w.n.table) && !MarkedBy(n, ws[2].s, w.n.table)
    ensures Orphaned(ws[2], w.n.table)
  {
    var c, former := ConfigOf(n, k), PinnedRule(ConfigOf(w.n, k));
    var reached := w.s.(rules := Kept(c, w.s.rules));
    assert Ours(c, former) && Ours(c, PinnedRule(c));
    assert Marked(c, w.s, w.n.table);
    WholePassCareful(c, w.s, w.n.table);
    steps := [Change(n), Pass(k, reached)];
    var w1 := Next(w, Change(n));
    ws := [w, w1, Next(w1, Pass(k, reached))];
    hide Careful;
    forall i | 0 <= i < |steps|
      ensures Enabled(ws[i], steps[i]) && ws[i + 1] == Next(ws[i], steps[i])
    {
    }
    assert !MarkedBy(n, reached, w.n.table) by {
      forall q, r | q in n.kinds && r in reached.rules && Ours(ConfigOf(n, q), r)
        ensures r.action.table != w.n.table
      {
        assert r in w.s.rules ==> r == former;
        assert former in Strays(c, w.s.rules);
      }
    }
  }

  lemma WholePassCareful(c: Config, s: State, t: int)
    requires forall r :: r in s.rules && Ours(c, r) ==> r.action.table == t
    requires !HoldsDefault(c, s, t)
    ensures Careful(c, s.(rules := Kept(c, s.rules)), s)
  {
    assert Ours(c, PinnedRule(c));
    assert forall u :: Marked(c, s, u) ==> u == t;
  }

  /** An orphan is out of reach for good: whatever passes are made for any of the rules, and whatever
      happens to other tables, the route stays and stays unfindable, until the kernel or the host takes
      it out or the setup is changed again. */
  lemma {:induction false} OrphanStays(ws: seq<World>, steps: seq<Step>, i: nat, j: nat, t: int)
    requires Run(ws, steps) && i <= j < |ws| && Orphaned(ws[i], t)
    requires forall k :: i <= k < j ==> !steps[k].Change? && steps[k] != LoseRoute(t)
                                        && !(steps[k].HostRoute? && steps[k].table == t)
    ensures Orphaned(ws[j], t)
    decreases j
  {
    hide Orphaned, Enabled, Next;
    if i < j {
      OrphanStays(ws, steps, i, j - 1, t);
      OrphanStep(ws[j - 1], steps[j - 1], t);
    }
  }

  lemma OrphanStep(w: World, step: Step, t: int)
    requires Orphaned(w, t) && Enabled(w, step) && !step.Change? && step != LoseRoute(t)
    requires !(step.HostRoute? && step.table == t)
    ensures Orphaned(Next(w, step), t)
  {
    var v := Next(w, step);
    if step.Pass? {
      var c := ConfigOf(w.n, step.kind);
      if t !in v.s.defaults {
        assert Marked(c, w.s, t) && HoldsDefault(c, w.s, t);
        assert MarkedBy(w.n, w.s, t);
      }
      if MarkedBy(w.n, v.s, t) {
        var q :| q in w.n.kinds && Marked(ConfigOf(w.n, q), v.s, t);
        var r :| r in v.s.rules && Ours(ConfigOf(w.n, q), r) && r.action.table == t;
        assert r in w.s.rules;
        assert Marked(ConfigOf(w.n, q), w.s, t);
      }
    } else {
      SameMarks(w.n, w.s, v.s, t);
    }
  }
}
