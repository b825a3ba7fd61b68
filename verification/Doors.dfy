/**
 The generated commands (`cmd/hubctl/Door.go`): adding them to the hand-written tree, and finding
 the command a line of arguments names.
 */
module Doors {
  datatype Runner = ByHand(which: nat) | ByDoor(door: nat)

  datatype Command = Command(name: string, runner: Runner)

  /** `runs` is a group that is a command of its own, with no verbs under it. */
  datatype Group = Group(name: string, runs: bool, commands: seq<Command>)

  datatype Door = Door(group: string, verb: string)

  predicate HasCommand(commands: seq<Command>, verb: string) { exists c | c in commands :: c.name == verb }

  predicate HasGroup(tree: seq<Group>, name: string) { exists g | g in tree :: g.name == name }

  // ---------------------------------------------------------------- what merging is to mean, group by group

  /** A group's commands once the first `n` doors are seen to. */
  function WithDoorsOf(g: Group, doors: seq<Door>, n: nat): seq<Command>
    requires n <= |doors|
  {
    if n == 0 then g.commands
    else
      var before := WithDoorsOf(g, doors, n - 1);
      var d := doors[n - 1];
      if d.group == g.name && !g.runs && !HasCommand(before, d.verb) then before + [Command(d.verb, ByDoor(n - 1))]
      else before
  }

  /** The groups no hand-written one has, in the order their first door comes. */
  function NewGroups(tree: seq<Group>, doors: seq<Door>, n: nat): seq<string>
    requires n <= |doors|
  {
    if n == 0 then []
    else
      var before := NewGroups(tree, doors, n - 1);
      var name := doors[n - 1].group;
      if HasGroup(tree, name) || name in before then before else before + [name]
  }

  /** Group `i` before any door: a hand-written one, or a new one without commands. */
  function Bare(tree: seq<Group>, doors: seq<Door>, n: nat, i: nat): Group
    requires n <= |doors| && i < |tree| + |NewGroups(tree, doors, n)|
  {
    if i < |tree| then tree[i] else Group(NewGroups(tree, doors, n)[i - |tree|], false, [])
  }

  predicate UniqueGroups(tree: seq<Group>) {
    forall i, j | 0 <= i < j < |tree| :: tree[i].name != tree[j].name
  }

  predicate UniqueVerbs(commands: seq<Command>) {
    forall i, j | 0 <= i < j < |commands| :: commands[i].name != commands[j].name
  }

  /** The tree after the first `n` doors. */
  predicate MergedUpTo(merged: seq<Group>, tree: seq<Group>, doors: seq<Door>, n: nat)
    requires n <= |doors|
  {
    && |merged| == |tree| + |NewGroups(tree, doors, n)|
    && forall i | 0 <= i < |merged| :: GroupUpTo(merged[i], tree, doors, n, i)
  }

  predicate GroupUpTo(g: Group, tree: seq<Group>, doors: seq<Door>, n: nat, i: nat)
    requires n <= |doors| && i < |tree| + |NewGroups(tree, doors, n)|
  {
    var bare := Bare(tree, doors, n, i);
    g == bare.(commands := WithDoorsOf(bare, doors, n))
  }

  // ---------------------------------------------------------------- the merge

  /** Each name's place in the tree. */
  ghost predicate Indexed(index: map<string, nat>, merged: seq<Group>) {
    && (forall name | name in index :: index[name] < |merged| && merged[index[name]].name == name)
    && (forall i | 0 <= i < |merged| :: merged[i].name in index && index[merged[i].name] == i)
  }

  method WithDoors(tree: seq<Group>, doors: seq<Door>) returns (merged: seq<Group>)
    requires UniqueGroups(tree)
    ensures MergedUpTo(merged, tree, doors, |doors|)
  {
    merged := tree;
    var index: map<string, nat> := map[];
    for i := 0 to |tree|
      invariant forall name | name in index :: index[name] < i && tree[index[name]].name == name
      invariant forall j | 0 <= j < i :: tree[j].name in index && index[tree[j].name] == j
    {
      index := index[tree[i].name := i];
    }
    for n := 0 to |doors|
      invariant MergedUpTo(merged, tree, doors, n) && Indexed(index, merged)
    {
      var d := doors[n];
      ghost var before := merged;
      if d.group !in index {
        merged := merged + [Group(d.group, false, [])];
        index := index[d.group := |merged| - 1];
        UnknownGroup(before, tree, doors, n);
      } else {
        KnownGroup(before, tree, doors, n, index[d.group]);
      }
      var at := index[d.group];
      if !merged[at].runs && !HasCommand(merged[at].commands, d.verb) {
        merged := merged[at := merged[at].(commands := merged[at].commands + [Command(d.verb, ByDoor(n))])];
      }
      assert merged == if at == |before| then before + [WithDoor(Group(d.group, false, []), d, n)]
                       else before[at := WithDoor(before[at], d, n)];
    }
  }

  lemma NameOf(merged: seq<Group>, tree: seq<Group>, doors: seq<Door>, n: nat, i: nat)
    requires n <= |doors| && MergedUpTo(merged, tree, doors, n) && i < |merged|
    ensures merged[i].name == if i < |tree| then tree[i].name else NewGroups(tree, doors, n)[i - |tree|]
  {
    assert GroupUpTo(merged[i], tree, doors, n, i);
  }

  lemma HasName(merged: seq<Group>, tree: seq<Group>, doors: seq<Door>, n: nat, name: string)
    requires n <= |doors| && MergedUpTo(merged, tree, doors, n)
    ensures HasGroup(merged, name) <==> HasGroup(tree, name) || name in NewGroups(tree, doors, n)
  {
    forall i | 0 <= i < |merged| ensures
        merged[i].name == if i < |tree| then tree[i].name else NewGroups(tree, doors, n)[i - |tree|]
    {
      NameOf(merged, tree, doors, n, i);
    }
    if HasGroup(tree, name) {
      var i :| 0 <= i < |tree| && tree[i].name == name;
      assert merged[i] in merged;
    }
    if name in NewGroups(tree, doors, n) {
      var i :| 0 <= i < |NewGroups(tree, doors, n)| && NewGroups(tree, doors, n)[i] == name;
      assert merged[|tree| + i] in merged && merged[|tree| + i].name == name;
    }
  }

  /** No door before named a group that is in neither list. */
  lemma {:induction false} NotYet(tree: seq<Group>, doors: seq<Door>, n: nat, g: Group)
    requires n <= |doors| && !HasGroup(tree, g.name) && g.name !in NewGroups(tree, doors, n)
    ensures WithDoorsOf(g, doors, n) == g.commands
  {
    if n > 0 { NotYet(tree, doors, n - 1, g); }
  }

  /** Group `i` is not the one door `n` names: nothing changes about it. */
  lemma NotNamed(g: Group, tree: seq<Group>, doors: seq<Door>, n: nat, i: nat)
    requires n < |doors| && i < |tree| + |NewGroups(tree, doors, n)|
    requires GroupUpTo(g, tree, doors, n, i) && g.name != doors[n].group
    ensures i < |tree| + |NewGroups(tree, doors, n + 1)| && GroupUpTo(g, tree, doors, n + 1, i)
  {
    assert Bare(tree, doors, n + 1, i) == Bare(tree, doors, n, i);
  }

  function WithDoor(g: Group, d: Door, n: nat): Group {
    if g.runs || HasCommand(g.commands, d.verb) then g else g.(commands := g.commands + [Command(d.verb, ByDoor(n))])
  }

  /** Group `i` is the one door `n` names, there before or new. */
  lemma Named(g: Group, tree: seq<Group>, doors: seq<Door>, n: nat, i: nat)
    requires n < |doors| && i < |tree| + |NewGroups(tree, doors, n + 1)| && g.name == doors[n].group
    requires if i < |tree| + |NewGroups(tree, doors, n)| then GroupUpTo(g, tree, doors, n, i)
             else g == Group(g.name, false, []) && !HasGroup(tree, g.name) && g.name !in NewGroups(tree, doors, n)
    ensures GroupUpTo(WithDoor(g, doors[n], n), tree, doors, n + 1, i)
  {
    if i < |tree| + |NewGroups(tree, doors, n)| {
      assert Bare(tree, doors, n + 1, i) == Bare(tree, doors, n, i);
    } else {
      NotYet(tree, doors, n, g);
      assert Bare(tree, doors, n + 1, i) == g;
    }
  }

  /** A door whose group is there. */
  lemma KnownGroup(merged: seq<Group>, tree: seq<Group>, doors: seq<Door>, n: nat, at: nat)
    requires n < |doors| && at < |merged| && merged[at].name == doors[n].group
    requires MergedUpTo(merged, tree, doors, n) && UniqueGroups(merged)
    ensures MergedUpTo(merged[at := WithDoor(merged[at], doors[n], n)], tree, doors, n + 1)
  {
    var after := merged[at := WithDoor(merged[at], doors[n], n)];
    HasName(merged, tree, doors, n, doors[n].group);
    assert merged[at] in merged;
    forall i | 0 <= i < |after| ensures GroupUpTo(after[i], tree, doors, n + 1, i) {
      assert GroupUpTo(merged[i], tree, doors, n, i);
      if i == at { Named(merged[i], tree, doors, n, i); } else { NotNamed(merged[i], tree, doors, n, i); }
    }
  }

  /** A door whose group is not. */
  lemma UnknownGroup(merged: seq<Group>, tree: seq<Group>, doors: seq<Door>, n: nat)
    requires n < |doors| && MergedUpTo(merged, tree, doors, n) && !HasGroup(merged, doors[n].group)
    ensures MergedUpTo(merged + [WithDoor(Group(doors[n].group, false, []), doors[n], n)], tree, doors, n + 1)
  {
    var g := Group(doors[n].group, false, []);
    var after := merged + [WithDoor(g, doors[n], n)];
    HasName(merged, tree, doors, n, doors[n].group);
    forall i | 0 <= i < |after| ensures GroupUpTo(after[i], tree, doors, n + 1, i) {
      if i == |merged| {
        Named(g, tree, doors, n, i);
      } else {
        assert merged[i] in merged && GroupUpTo(merged[i], tree, doors, n, i);
        NotNamed(merged[i], tree, doors, n, i);
      }
    }
  }
}
