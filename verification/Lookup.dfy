/**
 What the merged tree holds, and which command a line of arguments reaches
 (`cmd/hubctl/Door.go`, the dispatch of `Command.go`).
 */
module Lookup {
  import opened Wrappers
  import opened Words
  import opened Doors

  // ---------------------------------------------------------------- what merging keeps

  predicate ByHandOnly(commands: seq<Command>) { forall c | c in commands :: c.runner.ByHand? }

  /** Door `k` is for this group and verb. */
  predicate Opens(doors: seq<Door>, k: nat, group: string, verb: string)
    requires k < |doors|
  {
    doors[k] == Door(group, verb)
  }

  lemma {:induction false} VerbsOf(g: Group, doors: seq<Door>, n: nat, verb: string)
    requires n <= |doors|
    ensures HasCommand(WithDoorsOf(g, doors, n), verb)
       <==> HasCommand(g.commands, verb) || (!g.runs && exists k: nat | k < n :: Opens(doors, k, g.name, verb))
  {
    if n > 0 {
      VerbsOf(g, doors, n - 1, verb);
      var before, after := WithDoorsOf(g, doors, n - 1), WithDoorsOf(g, doors, n);
      if after != before {
        assert after[|after| - 1] in after;
        assert Opens(doors, n - 1, g.name, after[|after| - 1].name);
        assert HasCommand(after, verb) <==> HasCommand(before, verb) || verb == doors[n - 1].verb;
      } else if !g.runs && Opens(doors, n - 1, g.name, verb) {
        assert HasCommand(before, verb);
      }
    }
  }

  /**
   A generated command is in its group exactly where the group is no command itself, nobody wrote a
   command of that name by hand, and no door before it has the same one.
   */
  lemma {:induction false} PresentIffNotShadowed(g: Group, doors: seq<Door>, n: nat, j: nat)
    requires j < n <= |doors| && ByHandOnly(g.commands)
    ensures Command(doors[j].verb, ByDoor(j)) in WithDoorsOf(g, doors, n)
       <==> && doors[j].group == g.name && !g.runs && !HasCommand(g.commands, doors[j].verb)
            && !exists k: nat | k < j :: Opens(doors, k, g.name, doors[j].verb)
    decreases n
  {
    if j < n - 1 {
      PresentIffNotShadowed(g, doors, n - 1, j);
    } else {
      VerbsOf(g, doors, j, doors[j].verb);
      DoorsBefore(g, doors, j);
    }
  }

  /** Every command is hand-written, in front and in order, or one door's own. */
  lemma {:induction false} DoorsBefore(g: Group, doors: seq<Door>, n: nat)
    requires n <= |doors| && ByHandOnly(g.commands)
    ensures g.commands <= WithDoorsOf(g, doors, n)
    ensures forall c | c in WithDoorsOf(g, doors, n)[|g.commands|..] ::
              c.runner.ByDoor? && c.runner.door < n && doors[c.runner.door] == Door(g.name, c.name)
    ensures forall c | c in WithDoorsOf(g, doors, n) && c.runner.ByDoor? :: c.runner.door < n
  {
    if n > 0 { DoorsBefore(g, doors, n - 1); }
  }

  lemma {:induction false} VerbsStayUnique(g: Group, doors: seq<Door>, n: nat)
    requires n <= |doors| && UniqueVerbs(g.commands)
    ensures UniqueVerbs(WithDoorsOf(g, doors, n))
  {
    if n > 0 {
      VerbsStayUnique(g, doors, n - 1);
      var before := WithDoorsOf(g, doors, n - 1);
      assert forall i | 0 <= i < |before| :: before[i] in before;
    }
  }

  lemma {:induction false} NewGroupsAreNew(tree: seq<Group>, doors: seq<Door>, n: nat)
    requires n <= |doors|
    ensures var names := NewGroups(tree, doors, n);
            && (forall i, j | 0 <= i < j < |names| :: names[i] != names[j])
            && (forall name | name in names :: !HasGroup(tree, name))
            && forall k: nat | k < n :: HasGroup(tree, doors[k].group) || doors[k].group in names
  {
    if n > 0 { NewGroupsAreNew(tree, doors, n - 1); }
  }

  /** What a tree of unique groups and verbs is merged to. */
  predicate WellFormed(tree: seq<Group>) {
    UniqueGroups(tree) && forall i | 0 <= i < |tree| :: UniqueVerbs(tree[i].commands) && ByHandOnly(tree[i].commands)
  }

  /**
   Each group and each verb of a group occurs at most once; hand-written groups keep their places, and
   their commands stay in front, in order; and every door has its group.
   */
  lemma MergingKeeps(merged: seq<Group>, tree: seq<Group>, doors: seq<Door>)
    requires WellFormed(tree) && MergedUpTo(merged, tree, doors, |doors|)
    ensures UniqueGroups(merged) && forall i | 0 <= i < |merged| :: UniqueVerbs(merged[i].commands)
    ensures |tree| <= |merged|
    ensures forall i | 0 <= i < |tree| ::
              && merged[i].name == tree[i].name && merged[i].runs == tree[i].runs
              && tree[i].commands <= merged[i].commands
              && forall c | c in merged[i].commands[|tree[i].commands|..] :: c.runner.ByDoor?
    ensures forall d | d in doors :: HasGroup(merged, d.group)
  {
    var n := |doors|;
    NewGroupsAreNew(tree, doors, n);
    forall i | 0 <= i < |merged|
      ensures merged[i].name == if i < |tree| then tree[i].name else NewGroups(tree, doors, n)[i - |tree|]
      ensures UniqueVerbs(merged[i].commands)
      ensures i < |tree| ==> merged[i].runs == tree[i].runs && tree[i].commands <= merged[i].commands
      ensures i < |tree| ==> forall c | c in merged[i].commands[|tree[i].commands|..] :: c.runner.ByDoor?
    {
      assert GroupUpTo(merged[i], tree, doors, n, i);
      var bare := Bare(tree, doors, n, i);
      VerbsStayUnique(bare, doors, n);
      DoorsBefore(bare, doors, n);
    }
    MergedNamesUnique(merged, tree, NewGroups(tree, doors, n));
    forall d | d in doors ensures HasGroup(merged, d.group) { HasName(merged, tree, doors, n, d.group); }
  }

  lemma MergedNamesUnique(merged: seq<Group>, tree: seq<Group>, names: seq<string>)
    requires UniqueGroups(tree) && |merged| == |tree| + |names|
    requires forall i | 0 <= i < |merged| :: merged[i].name == if i < |tree| then tree[i].name else names[i - |tree|]
    requires forall i, j | 0 <= i < j < |names| :: names[i] != names[j]
    requires forall name | name in names :: !HasGroup(tree, name)
    ensures UniqueGroups(merged)
  {
    forall i, j | 0 <= i < j < |merged| ensures merged[i].name != merged[j].name {
      if i < |tree| <= j {
        assert tree[i] in tree && names[j - |tree|] in names;
      }
    }
  }

  // ---------------------------------------------------------------- the verb

  /** The arguments begin with the command's words. */
  predicate Matches(c: Command, args: seq<string>) { Fields(c.name) != [] && Fields(c.name) <= args }

  function Width(c: Command): nat { |Fields(c.name)| }

  /** The command `at` is the one with the most words the arguments begin with, and the first of those. */
  predicate Longest(commands: seq<Command>, args: seq<string>, at: nat) {
    LongestOf(commands, |commands|, args, at)
  }

  /** Among the first `n` commands. */
  predicate LongestOf(commands: seq<Command>, n: nat, args: seq<string>, at: nat)
    requires n <= |commands|
  {
    && at < n && Matches(commands[at], args)
    && forall j | 0 <= j < n && Matches(commands[j], args) ::
         Width(commands[j]) <= Width(commands[at]) && (j < at ==> Width(commands[j]) < Width(commands[at]))
  }

  predicate NoneMatches(commands: seq<Command>, n: nat, args: seq<string>)
    requires n <= |commands|
  {
    forall j | 0 <= j < n :: !Matches(commands[j], args)
  }

  /** One more command looked at: `best` of those before, or none. */
  lemma OneMoreCommand(commands: seq<Command>, n: nat, args: seq<string>, best: Option<nat>)
    requires n < |commands|
    requires match best case None => NoneMatches(commands, n, args) case Some(at) => LongestOf(commands, n, args, at)
    ensures var width := if best.Some? then Width(commands[best.value]) else 0;
            if Matches(commands[n], args) && Width(commands[n]) > width then LongestOf(commands, n + 1, args, n)
            else
              match best
              case None => NoneMatches(commands, n + 1, args)
              case Some(at) => LongestOf(commands, n + 1, args, at)
  {}

  /** What the loop tests is whether the arguments begin with the command's words. */
  lemma TestedByJoin(c: Command, args: seq<string>)
    requires Normal(c.name) && 0 < Width(c) <= |args|
    ensures Join(args[..Width(c)]) == c.name <==> Matches(c, args)
  {
    JoinsToItsWordsOnly(c.name, args[..Width(c)]);
  }

  predicate NormalNames(commands: seq<Command>) { forall c | c in commands :: Normal(c.name) }

  datatype Found = Found(command: Command, rest: seq<string>)

  method VerbOf(commands: seq<Command>, args: seq<string>) returns (found: Option<Found>)
    requires NormalNames(commands)
    ensures found.None? <==> !exists c | c in commands :: Matches(c, args)
    ensures found.Some? ==> exists at: nat ::
              Longest(commands, args, at) && found == Some(Found(commands[at], args[Width(commands[at])..]))
  {
    var width := 0;
    var best: Option<nat> := None;
    for i := 0 to |commands|
      invariant match best case None => NoneMatches(commands, i, args) case Some(at) => LongestOf(commands, i, args, at)
      invariant width == if best.Some? then Width(commands[best.value]) else 0
    {
      OneMoreCommand(commands, i, args, best);
      var c := commands[i];
      var words := Fields(c.name);
      if |words| > width && |args| >= |words| {
        assert c in commands;
        TestedByJoin(c, args);
        if Join(args[..|words|]) == c.name {
          best, width := Some(i), |words|;
        }
      }
    }
    if best.None? {
      return None;
    }
    assert Longest(commands, args, best.value);
    found := Some(Found(commands[best.value], args[width..]));
  }

  /** There is no second command it could have been. */
  lemma TheLongestIsOne(commands: seq<Command>, args: seq<string>, i: nat, j: nat)
    requires Longest(commands, args, i) && Longest(commands, args, j)
    ensures i == j
  {}

  // ---------------------------------------------------------------- the whole line

  datatype Target =
    | RunsGroup(group: string, rest: seq<string>)
    | RunsCommand(group: string, command: Command, rest: seq<string>)
    | NeedsCommand(group: string)
    | NoSuchVerb(group: string)
    | NoSuchGroup

  method Dispatch(tree: seq<Group>, args: seq<string>) returns (t: Target)
    requires args != [] && UniqueGroups(tree) && forall g | g in tree :: NormalNames(g.commands)
    ensures t.NoSuchGroup? <==> !HasGroup(tree, args[0])
    ensures !t.NoSuchGroup? ==> exists g | g in tree :: g.name == args[0] && Reaches(g, args[1..], t)
  {
    for i := 0 to |tree|
      invariant forall j | 0 <= j < i :: tree[j].name != args[0]
    {
      if tree[i].name != args[0] {
        continue;
      }
      assert tree[i] in tree;
      if tree[i].runs {
        return RunsGroup(tree[i].name, args[1..]);
      }
      if |args| == 1 {
        return NeedsCommand(tree[i].name);
      }
      var found := VerbOf(tree[i].commands, args[1..]);
      t := if found.Some? then RunsCommand(tree[i].name, found.value.command, found.value.rest)
           else NoSuchVerb(tree[i].name);
      assert Reaches(tree[i], args[1..], t);
      return;
    }
    return NoSuchGroup;
  }

  /** What a line reaches within the group it names. */
  ghost predicate Reaches(g: Group, args: seq<string>, t: Target) {
    match t
    case NoSuchGroup => false
    case RunsGroup(group, rest) => group == g.name && g.runs && rest == args
    case NeedsCommand(group) => group == g.name && !g.runs && args == []
    case NoSuchVerb(group) =>
      group == g.name && !g.runs && args != [] && !exists c | c in g.commands :: Matches(c, args)
    case RunsCommand(group, command, rest) =>
      && group == g.name && !g.runs && args != []
      && exists at: nat :: Longest(g.commands, args, at) && command == g.commands[at] && rest == args[Width(command)..]
  }

  /**
   A door nothing shadows is reached by its group and its words, with whatever follows as its
   arguments, unless a longer command of the group takes those too.
   */
  lemma ADoorIsReachedByItsWords(
    merged: seq<Group>, tree: seq<Group>, doors: seq<Door>, i: nat, j: nat, rest: seq<string>, t: Target)
    requires WellFormed(tree) && MergedUpTo(merged, tree, doors, |doors|)
    requires j < |doors| && i < |merged| && merged[i].name == doors[j].group && !merged[i].runs
    requires i < |tree| ==> !HasCommand(tree[i].commands, doors[j].verb)
    requires forall k: nat | k < j :: doors[k] != doors[j]
    requires Normal(doors[j].verb) && Fields(doors[j].verb) != []
    requires var args := Fields(doors[j].verb) + rest;
             forall c | c in merged[i].commands && Matches(c, args) ::
               Normal(c.name) && Width(c) <= |Fields(doors[j].verb)|
    requires Reaches(merged[i], Fields(doors[j].verb) + rest, t)
    ensures t == RunsCommand(doors[j].group, Command(doors[j].verb, ByDoor(j)), rest)
  {
    var c := Command(doors[j].verb, ByDoor(j));
    var args := Fields(doors[j].verb) + rest;
    var bare := Bare(tree, doors, |doors|, i);
    assert GroupUpTo(merged[i], tree, doors, |doors|, i);
    PresentIffNotShadowed(bare, doors, |doors|, j);
    assert c in merged[i].commands && Matches(c, args);
    VerbsStayUnique(bare, doors, |doors|);
    var own: nat :| 0 <= own < |merged[i].commands| && merged[i].commands[own] == c;
    OwnIsLongest(merged[i].commands, args, own);
    assert args[Width(c)..] == rest;
    if t.RunsCommand? {
      var commands := merged[i].commands;
      var at: nat :| Longest(commands, args, at) && t.command == commands[at] && t.rest == args[Width(t.command)..];
      TheLongestIsOne(merged[i].commands, args, at, own);
    }
  }

  lemma OwnIsLongest(commands: seq<Command>, args: seq<string>, own: nat)
    requires own < |commands| && Matches(commands[own], args) && UniqueVerbs(commands) && Normal(commands[own].name)
    requires forall c | c in commands && Matches(c, args) :: Normal(c.name) && Width(c) <= Width(commands[own])
    ensures Longest(commands, args, own)
  {
    forall j | 0 <= j < own && Matches(commands[j], args) ensures Width(commands[j]) < Width(commands[own]) {
      assert commands[j] in commands;
      SameWordsSameName(commands[j], commands[own], args);
    }
  }

  lemma SameWordsSameName(a: Command, b: Command, args: seq<string>)
    requires Matches(a, args) && Matches(b, args) && Normal(a.name) && Normal(b.name)
    ensures Width(a) == Width(b) ==> a.name == b.name
  {
    if Width(a) == Width(b) {
      assert Fields(a.name) == args[..Width(a)] && Fields(b.name) == args[..Width(b)];
    }
  }
}
