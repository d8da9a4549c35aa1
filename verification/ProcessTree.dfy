/** Which processes count as this app's own: the loop that collects descendants in
    ProcessSampler::finish, src/perf.rs:203-227. */
module ProcessTree {
  import opened Wrappers
  import Sets

  type Pid = nat

  /** A thread that Linux lists as a process of its own is marked so. */
  datatype Process = Process(parent: Option<Pid>, isThread: bool)

  type Table = map<Pid, Process>

  /** `pid` is a process, not a thread, and a child of one of `s`. */
  predicate ChildOf(table: Table, pid: Pid, s: set<Pid>) {
    pid in table && !table[pid].isThread && table[pid].parent.Some? && table[pid].parent.value in s
  }

  /** `s` holds the own process and with any process all its children. */
  ghost predicate IsFamily(table: Table, own: Pid, s: set<Pid>) {
    own in s && forall pid :: ChildOf(table, pid, s) ==> pid in s
  }

  ghost predicate NoDuplicates(found: seq<Pid>) {
    forall i, j :: 0 <= i < j < |found| ==> found[i] != found[j]
  }

  function Members(found: seq<Pid>): set<Pid> {
    set pid | pid in found
  }

  lemma {:induction false} SizeOfMembers(found: seq<Pid>)
    requires NoDuplicates(found)
    ensures |Members(found)| == |found|
  {
    if found != [] {
      var front := found[..|found| - 1];
      SizeOfMembers(front);
      assert Members(found) == Members(front) + {found[|found| - 1]};
    }
  }

  /** What was found is part of every family, without duplicates, and the own process is the first. */
  ghost predicate Found(table: Table, own: Pid, found: seq<Pid>) {
    && found != [] && found[0] == own
    && NoDuplicates(found)
    && Members(found) <= table.Keys
    && forall s: set<Pid> :: IsFamily(table, own, s) ==> Members(found) <= s
  }

  lemma OneMoreFound(table: Table, own: Pid, found: seq<Pid>, pid: Pid)
    requires Found(table, own, found) && pid !in found && ChildOf(table, pid, Members(found))
    ensures Found(table, own, found + [pid])
  {
    assert Members(found + [pid]) == Members(found) + {pid};
    forall s: set<Pid> | IsFamily(table, own, s) ensures Members(found + [pid]) <= s {
      assert ChildOf(table, pid, s);
    }
  }

  /** The own process and its descendants: the least family there is, each member once, in whatever order
      the table is gone through, and however its parent links run, in circles too. Without the own
      process in the table there is no answer. */
  method Descendants(table: Table, own: Pid) returns (result: Result<seq<Pid>, string>)
    ensures result.Err? <==> own !in table
    ensures result.Ok? ==>
      && NoDuplicates(result.value)
      && IsFamily(table, own, Members(result.value))
      && (forall s: set<Pid> :: IsFamily(table, own, s) ==> Members(result.value) <= s)
  {
    if own !in table {
      return Err("this process is not in the process list");
    }
    var found := [own];
    var grew := true;
    while grew
      invariant Found(table, own, found)
      invariant !grew ==> IsFamily(table, own, Members(found))
      decreases |table.Keys| - |found|, grew
    {
      var before := |found|;
      ghost var start := found;
      var rest := table.Keys;
      while rest != {}
        invariant rest <= table.Keys
        invariant Found(table, own, found) && |found| >= before
        invariant |found| == before ==> found == start
        invariant |found| == before ==>
          forall pid :: pid in table.Keys - rest && ChildOf(table, pid, Members(found)) ==> pid in found
        decreases rest
      {
        var pid :| pid in rest;
        rest := rest - {pid};
        if !table[pid].isThread && pid !in found && table[pid].parent.Some? && table[pid].parent.value in found {
          OneMoreFound(table, own, found, pid);
          found := found + [pid];
        }
      }
      grew := |found| != before;
      SizeOfMembers(found);
      Sets.SubsetIsSmaller(Members(found), table.Keys);
    }
    result := Ok(found);
  }

  /** There is only one least family, so every order finds the same processes. */
  lemma LeastFamilyIsUnique(table: Table, own: Pid, a: seq<Pid>, b: seq<Pid>)
    requires IsFamily(table, own, Members(a)) && IsFamily(table, own, Members(b))
    requires forall s: set<Pid> :: IsFamily(table, own, s) ==> Members(a) <= s
    requires forall s: set<Pid> :: IsFamily(table, own, s) ==> Members(b) <= s
    requires NoDuplicates(a) && NoDuplicates(b)
    ensures Members(a) == Members(b) && |a| == |b|
  {
    SizeOfMembers(a);
    SizeOfMembers(b);
  }

  /** A chain of parents from `pid` up to the own process, each a process and not a thread but the last. */
  ghost predicate IsLine(table: Table, own: Pid, line: seq<Pid>) {
    && line != [] && line[|line| - 1] == own
    && forall i :: 0 <= i < |line| - 1 ==> ChildOf(table, line[i], {line[i + 1]})
  }

  /** In the family by descent: every member of the least family has a line up to the own process, and
      whatever has one is a member. */
  lemma FamilyIsDescent(table: Table, own: Pid, members: set<Pid>, pid: Pid)
    requires own in table && IsFamily(table, own, members)
    requires forall s: set<Pid> :: IsFamily(table, own, s) ==> members <= s
    ensures pid in members <==> exists line :: IsLine(table, own, line) && line[0] == pid
  {
    if line :| IsLine(table, own, line) && line[0] == pid {
      LineIsInFamily(table, own, members, line);
    }
    var descended := set p | p in members && exists line :: IsLine(table, own, line) && line[0] == p;
    assert own in descended by {
      assert IsLine(table, own, [own]) && [own][0] == own;
    }
    forall p | ChildOf(table, p, descended) ensures p in descended {
      var parent := table[p].parent.value;
      var line :| IsLine(table, own, line) && line[0] == parent;
      assert IsLine(table, own, [p] + line) && ([p] + line)[0] == p;
    }
    assert IsFamily(table, own, descended);
  }

  lemma {:induction false} LineIsInFamily(table: Table, own: Pid, members: set<Pid>, line: seq<Pid>)
    requires IsFamily(table, own, members) && IsLine(table, own, line)
    ensures line[0] in members
  {
    if |line| > 1 {
      LineIsInFamily(table, own, members, line[1..]);
      assert ChildOf(table, line[0], {line[1]});
      assert ChildOf(table, line[0], members);
    }
  }
}
