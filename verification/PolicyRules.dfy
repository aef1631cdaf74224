/**
 The kernel's policy rules and per-table default routes, as the commands that change them see
 them: each command may be refused, and everything the kernel ever held is remembered.
 */
module PolicyRules {

  datatype Selector = From(address: int) | Mark(mark: int)

  datatype Action = Lookup(table: int) | Unreachable

  datatype Rule = Rule(sel: Selector, pref: int, action: Action)

  /** Per table, at most one default route, by its gateway, and one route to the backend, by its
      interface. */
  datatype State = State(rules: set<Rule>, defaults: map<int, int>, hosts: map<int, int>)

  datatype Command =
    | AddRule(rule: Rule) | DelRule(rule: Rule) | DelDefault(via: int, table: int)
    | PutHost(table: int, iface: int)

  /** A rule is added once, only what is there is deleted, and a route is put whatever was there. */
  predicate Possible(s: State, c: Command) {
    match c
    case AddRule(r) => r !in s.rules
    case DelRule(r) => r in s.rules
    case DelDefault(via, t) => t in s.defaults && s.defaults[t] == via
    case PutHost(_, _) => true
  }

  function Effect(s: State, c: Command): State {
    match c
    case AddRule(r) => s.(rules := s.rules + {r})
    case DelRule(r) => s.(rules := s.rules - {r})
    case DelDefault(_, t) => s.(defaults := s.defaults - {t})
    case PutHost(t, iface) => s.(hosts := s.hosts[t := iface])
  }

  /** `issued` holds every command so far, accepted or not, and `past` the state after each. */
  class Kernel {
    var state: State
    ghost var past: seq<State>
    ghost var issued: seq<Command>

    constructor (s: State)
      ensures state == s && past == [] && issued == []
    {
      state, past, issued := s, [], [];
    }

    method Run(c: Command, denied: set<Command>) returns (ok: bool)
      modifies this
      ensures ok == (c !in denied && Possible(old(state), c))
      ensures state == if ok then Effect(old(state), c) else old(state)
      ensures past == old(past) + [state] && issued == old(issued) + [c]
    {
      ok := c !in denied && Possible(state, c);
      if ok {
        state := Effect(state, c);
      }
      past, issued := past + [state], issued + [c];
    }
  }
}
