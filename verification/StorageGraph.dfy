/** Resolving a block device to the devices it rests on: a depth-first search over a
    device graph that may have cycles and shared nodes, with one visited set shared by
    the whole search. */
module StorageGraph {
  import opened Sorting

  /** One device: the devices below it, in the order they are listed, and the disk it is a
      partition of, if any. */
  datatype Device = Device(slaves: seq<string>, parent: string)

  type Graph = map<string, Device>

  function Slaves(g: Graph, name: string): seq<string> {
    if name in g then g[name].slaves else []
  }

  function PartitionParent(g: Graph, name: string): string {
    if name in g then g[name].parent else ""
  }

  predicate IsVirtual(name: string) {
    HasPrefix(name, "dm-") || HasPrefix(name, "loop") || HasPrefix(name, "ram") || HasPrefix(name, "zram")
  }

  /** The two searches: the devices below a device mapper, and the physical disks. */
  datatype Search = Terminals | Disks

  /** Where a search goes on from a device. */
  function Next(search: Search, g: Graph, name: string): seq<string> {
    if Slaves(g, name) != [] then Slaves(g, name)
    else if search == Disks && PartitionParent(g, name) != "" then [PartitionParent(g, name)]
    else []
  }

  /** The devices a search returns. */
  predicate Accepts(search: Search, g: Graph, name: string) {
    Next(search, g, name) == [] && (if search == Disks then !IsVirtual(name) else !HasPrefix(name, "dm-"))
  }

  ghost predicate Path(search: Search, g: Graph, p: seq<string>) {
    p != [] && forall i :: 0 <= i < |p| - 1 ==> p[i + 1] in Next(search, g, p[i])
  }

  ghost predicate Reaches(search: Search, g: Graph, origin: string, target: string) {
    exists p :: Path(search, g, p) && p[0] == origin && p[|p| - 1] == target
  }

  /** Names already seen, shared by all the branches of one search. */
  class VisitedSet {
    var names: set<string>

    constructor ()
      ensures names == {}
    {
      names := {};
    }
  }

  // ----- what a search has done -----

  ghost function Accepted(search: Search, g: Graph, names: set<string>): set<string> {
    set x | x in names && Accepts(search, g, x)
  }

  /** All of the names are reachable from a device. */
  ghost predicate AllReached(search: Search, g: Graph, origin: string, names: set<string>) {
    forall x :: x in names ==> Reaches(search, g, origin, x)
  }

  /** Every name in a set leads only to a larger set. */
  ghost predicate ClosedIn(search: Search, g: Graph, names: set<string>, larger: set<string>) {
    forall x, y :: x in names && y in Next(search, g, x) ==> y in larger
  }

  /** A call visited new names: it went where it had to, and nowhere else, and what it
      returned lists the accepted ones among them. */
  ghost predicate Searched(search: Search, g: Graph, name: string, before: set<string>, after: set<string>, r: seq<string>) {
    && before <= after && name in after
    && AllReached(search, g, name, after - before)
    && ClosedIn(search, g, after - before, after)
    && Clean(Members(r)) == Clean(Accepted(search, g, after - before))
  }

  lemma ReachesSelf(search: Search, g: Graph, name: string)
    ensures Reaches(search, g, name, name)
  {
    assert Path(search, g, [name]);
    assert [name][|[name]| - 1] == name;
  }

  lemma ReachesStep(search: Search, g: Graph, name: string, next: string, target: string)
    requires next in Next(search, g, name) && Reaches(search, g, next, target)
    ensures Reaches(search, g, name, target)
  {
    var p :| Path(search, g, p) && p[0] == next && p[|p| - 1] == target;
    var q := [name] + p;
    forall i | 0 <= i < |q| - 1
      ensures q[i + 1] in Next(search, g, q[i])
    {
      if i > 0 { assert p[i] in Next(search, g, p[i - 1]); }
    }
    assert Path(search, g, q) && q[|q| - 1] == target;
  }

  lemma ReachedThrough(search: Search, g: Graph, name: string, next: string, names: set<string>)
    requires next in Next(search, g, name) && AllReached(search, g, next, names)
    ensures AllReached(search, g, name, names)
  {
    forall x | x in names
      ensures Reaches(search, g, name, x)
    {
      ReachesStep(search, g, name, next, x);
    }
  }

  lemma AlreadyVisited(search: Search, g: Graph, name: string, visited: set<string>)
    requires name in visited
    ensures Searched(search, g, name, visited, visited, [])
  {
    assert visited - visited == {};
    assert Accepted(search, g, {}) == {} == Members([]);
  }

  lemma AtLeaf(search: Search, g: Graph, name: string, visited: set<string>)
    requires name !in visited && Next(search, g, name) == []
    ensures Searched(search, g, name, visited, visited + {name}, if Accepts(search, g, name) then [name] else [])
  {
    ReachesSelf(search, g, name);
    assert visited + {name} - visited == {name};
    assert Accepted(search, g, {name}) == if Accepts(search, g, name) then {name} else {};
    assert Members([name]) == {name} && Members([]) == {};
  }

  /** Part of the way through the devices below one: the first k have been searched. */
  ghost predicate Searching(
    search: Search, g: Graph, name: string, k: nat, before: set<string>, now: set<string>, r: seq<string>)
    requires k <= |Next(search, g, name)|
  {
    && before + {name} <= now && name !in before
    && AllReached(search, g, name, now - before)
    && ClosedIn(search, g, now - before - {name}, now)
    && (forall i :: 0 <= i < k ==> Next(search, g, name)[i] in now)
    && Clean(Members(r)) == Clean(Accepted(search, g, now - before))
  }

  lemma SearchingStarts(search: Search, g: Graph, name: string, before: set<string>)
    requires name !in before && Next(search, g, name) != []
    ensures Searching(search, g, name, 0, before, before + {name}, [])
  {
    ReachesSelf(search, g, name);
    assert before + {name} - before == {name};
    assert before + {name} - before - {name} == {};
    assert Accepted(search, g, {name}) == {} == Members([]);
  }

  lemma MembersAppend(r: seq<string>, part: seq<string>)
    ensures Members(r + part) == Members(r) + Members(part)
  {
  }

  /** Two parts of a search, one after the other, list what both accepted. */
  lemma ResultsAdd(
    search: Search, g: Graph, before: set<string>, now: set<string>, after: set<string>, r: seq<string>, part: seq<string>)
    requires before <= now <= after
    requires Clean(Members(r)) == Clean(Accepted(search, g, now - before))
    requires Clean(Members(part)) == Clean(Accepted(search, g, after - now))
    ensures Clean(Members(r + part)) == Clean(Accepted(search, g, after - before))
  {
    assert Accepted(search, g, after - before) == Accepted(search, g, now - before) + Accepted(search, g, after - now);
    CleanUnion(Accepted(search, g, now - before), Accepted(search, g, after - now));
    CleanUnion(Members(r), Members(part));
    MembersAppend(r, part);
  }

  lemma SearchingStep(
    search: Search, g: Graph, name: string, k: nat, before: set<string>, now: set<string>, r: seq<string>, after: set<string>, part: seq<string>)
    requires k < |Next(search, g, name)| && Searching(search, g, name, k, before, now, r)
    requires Searched(search, g, Next(search, g, name)[k], now, after, part)
    ensures Searching(search, g, name, k + 1, before, after, r + part)
  {
    ReachedThrough(search, g, name, Next(search, g, name)[k], after - now);
    ResultsAdd(search, g, before, now, after, r, part);
    assert after - before == (now - before) + (after - now);
    assert after - before - {name} == (now - before - {name}) + (after - now);
  }

  lemma SearchingEnds(
    search: Search, g: Graph, name: string, before: set<string>, now: set<string>, r: seq<string>, result: seq<string>)
    requires Searching(search, g, name, |Next(search, g, name)|, before, now, r)
    requires Members(result) == Clean(Members(r)) || result == r
    ensures Searched(search, g, name, before, now, result)
  {
    CleanTwice(Members(r));
    forall x, y | x in now - before && y in Next(search, g, x)
      ensures y in now
    {
      if x != name { assert x in now - before - {name}; }
    }
  }

  // ----- the searches -----

  method TerminalSlaves(g: Graph, name: string, visited: VisitedSet) returns (r: seq<string>)
    modifies visited
    ensures Increasing(r) && Searched(Terminals, g, name, old(visited.names), visited.names, r)
    decreases |g.Keys - visited.names|
  {
    ghost var before := visited.names;
    if name in visited.names {
      AlreadyVisited(Terminals, g, name, before);
      return [];
    }
    visited.names := visited.names + {name};
    var slaves := Slaves(g, name);
    if |slaves| == 0 {
      AtLeaf(Terminals, g, name, before);
      if HasPrefix(name, "dm-") {
        return [];
      }
      return [name];
    }
    Smaller(g, before, name);
    SearchingStarts(Terminals, g, name, before);
    var terminals := [];
    var i := 0;
    while i < |slaves|
      invariant 0 <= i <= |slaves|
      invariant Searching(Terminals, g, name, i, before, visited.names, terminals)
    {
      StillSmaller(g, before + {name}, visited.names);
      ghost var now := visited.names;
      var part := TerminalSlaves(g, slaves[i], visited);
      SearchingStep(Terminals, g, name, i, before, now, terminals, visited.names, part);
      terminals := terminals + part;
      i := i + 1;
    }
    r := SortedUnique(terminals);
    SearchingEnds(Terminals, g, name, before, visited.names, terminals, r);
  }

  method PhysicalDisksFor(g: Graph, name: string, visited: VisitedSet) returns (r: seq<string>)
    modifies visited
    ensures Increasing(r) && Searched(Disks, g, name, old(visited.names), visited.names, r)
    decreases |g.Keys - visited.names|
  {
    ghost var before := visited.names;
    if name in visited.names {
      AlreadyVisited(Disks, g, name, before);
      return [];
    }
    visited.names := visited.names + {name};
    var slaves := Slaves(g, name);
    if |slaves| > 0 {
      Smaller(g, before, name);
      SearchingStarts(Disks, g, name, before);
      var disks := [];
      var i := 0;
      while i < |slaves|
        invariant 0 <= i <= |slaves|
        invariant Searching(Disks, g, name, i, before, visited.names, disks)
      {
        StillSmaller(g, before + {name}, visited.names);
        ghost var now := visited.names;
        var part := PhysicalDisksFor(g, slaves[i], visited);
        SearchingStep(Disks, g, name, i, before, now, disks, visited.names, part);
        disks := disks + part;
        i := i + 1;
      }
      r := SortedUnique(disks);
      SearchingEnds(Disks, g, name, before, visited.names, disks, r);
      return;
    }
    var parent := PartitionParent(g, name);
    if parent != "" {
      Smaller(g, before, name);
      SearchingStarts(Disks, g, name, before);
      ghost var now := visited.names;
      r := PhysicalDisksFor(g, parent, visited);
      SearchingStep(Disks, g, name, 0, before, now, [], visited.names, r);
      assert [] + r == r;
      SearchingEnds(Disks, g, name, before, visited.names, r, r);
      return;
    }
    AtLeaf(Disks, g, name, before);
    if IsVirtual(name) {
      return [];
    }
    return [name];
  }

  lemma Smaller(g: Graph, visited: set<string>, name: string)
    requires name in g && name !in visited
    ensures |g.Keys - (visited + {name})| < |g.Keys - visited|
  {
    assert g.Keys - visited == (g.Keys - (visited + {name})) + {name};
  }

  lemma StillSmaller(g: Graph, a: set<string>, b: set<string>)
    requires a <= b
    ensures |g.Keys - b| <= |g.Keys - a|
  {
    assert g.Keys - a == (g.Keys - b) + ((g.Keys - a) - (g.Keys - b));
  }

  // ----- a whole search -----

  /** A set that is closed under a search contains everything reachable from its members. */
  lemma {:induction false} ClosedHasReachable(search: Search, g: Graph, names: set<string>, p: seq<string>)
    requires ClosedIn(search, g, names, names) && Path(search, g, p) && p[0] in names
    ensures p[|p| - 1] in names
    decreases |p|
  {
    if |p| <= 1 {
    } else {
      assert p[1] in Next(search, g, p[0]);
      forall i | 0 <= i < |p[1..]| - 1
        ensures p[1..][i + 1] in Next(search, g, p[1..][i])
      {
        assert p[i + 1 + 1] in Next(search, g, p[i + 1]);
      }
      ClosedHasReachable(search, g, names, p[1..]);
    }
  }

  /** A search from an empty visited set visits exactly what is reachable, so that its
      result lists exactly the reachable devices it accepts. */
  lemma WholeSearch(search: Search, g: Graph, name: string, after: set<string>, r: seq<string>)
    requires Searched(search, g, name, {}, after, r)
    ensures forall x :: x in after <==> Reaches(search, g, name, x)
    ensures forall y :: y in Clean(Members(r)) <==>
              exists x :: Reaches(search, g, name, x) && Accepts(search, g, x) && Listed(x) && y == Trim(x)
  {
    assert after - {} == after;
    forall x | Reaches(search, g, name, x)
      ensures x in after
    {
      var p :| Path(search, g, p) && p[0] == name && p[|p| - 1] == x;
      ClosedHasReachable(search, g, after, p);
    }
  }

  /** A list is the increasing list of the accepted devices reachable from a device. */
  ghost predicate ListsReachable(search: Search, g: Graph, name: string, r: seq<string>) {
    Increasing(r) &&
    forall y :: y in r <==> exists x :: Reaches(search, g, name, x) && Accepts(search, g, x) && Listed(x) && y == Trim(x)
  }

  /** The devices below a device mapper, and the physical disks, of one device; nothing for
      a device without a kernel name. */
  method ResolveSysfsTopology(g: Graph, kernelName: string) returns (parents: seq<string>, disks: seq<string>)
    ensures kernelName == "" ==> parents == [] && disks == []
    ensures kernelName != "" && !HasPrefix(kernelName, "dm-") ==> parents == []
    ensures kernelName != "" && HasPrefix(kernelName, "dm-") ==> ListsReachable(Terminals, g, kernelName, parents)
    ensures kernelName != "" ==> ListsReachable(Disks, g, kernelName, disks)
  {
    parents, disks := [], [];
    if kernelName == "" {
      return;
    }
    if HasPrefix(kernelName, "dm-") {
      var visited := new VisitedSet();
      parents := TerminalSlaves(g, kernelName, visited);
      WholeSearch(Terminals, g, kernelName, visited.names, parents);
    }
    var visited := new VisitedSet();
    disks := PhysicalDisksFor(g, kernelName, visited);
    WholeSearch(Disks, g, kernelName, visited.names, disks);
    ghost var foundParents, foundDisks := parents, disks;
    parents := SortedUnique(parents);
    disks := SortedUnique(disks);
    HasMember(parents);
    SameMembers(parents, foundParents);
    SameMembers(disks, foundDisks);
  }

  lemma SameMembers(r: seq<string>, found: seq<string>)
    requires Members(r) == Clean(Members(found))
    ensures forall y :: y in r <==> y in Clean(Members(found))
  {
    forall y
      ensures y in r <==> y in Clean(Members(found))
    {
      assert y in r <==> y in Members(r);
    }
  }

  /** A name is a word followed by anything. */
  ghost predicate StartsWith(name: string, word: string) {
    exists rest :: name == word + rest
  }

  lemma PrefixStarts(name: string, word: string)
    ensures HasPrefix(name, word) <==> StartsWith(name, word)
  {
    if HasPrefix(name, word) { assert name == word + name[|word|..]; }
  }

  /** What ends a search: a device with nothing below it, and no partition of a disk, unless
      its name is that of a virtual one. */
  lemma AcceptsByName(g: Graph, name: string)
    ensures Accepts(Terminals, g, name) <==> Slaves(g, name) == [] && !StartsWith(name, "dm-")
    ensures Accepts(Disks, g, name) <==>
              && Slaves(g, name) == [] && PartitionParent(g, name) == "" && !StartsWith(name, "dm-")
              && !StartsWith(name, "loop") && !StartsWith(name, "ram") && !StartsWith(name, "zram")
  {
    PrefixStarts(name, "dm-");
    PrefixStarts(name, "loop");
    PrefixStarts(name, "ram");
    PrefixStarts(name, "zram");
  }

  /** The accepted devices reachable from a device. */
  ghost predicate Found(search: Search, g: Graph, name: string, x: string) {
    Reaches(search, g, name, x) && Accepts(search, g, x)
  }

  /** With device names that are already trimmed, and not blank or a dash, the list holds
      exactly the accepted reachable devices, and is the only increasing list that does. */
  lemma ExactlyTheReachable(search: Search, g: Graph, name: string, r: seq<string>)
    requires ListsReachable(search, g, name, r)
    requires forall x :: Found(search, g, name, x) ==> Listed(x) && Trim(x) == x
    ensures forall x :: x in r <==> Found(search, g, name, x)
    ensures forall t :: Increasing(t) && (forall x :: x in t <==> Found(search, g, name, x)) ==> t == r
  {
    forall x
      ensures x in r <==> Found(search, g, name, x)
    {
      if x in r {
        var z :| Reaches(search, g, name, z) && Accepts(search, g, z) && Listed(z) && x == Trim(z);
        assert Found(search, g, name, z);
      }
      if Found(search, g, name, x) {
        assert Listed(x) && x == Trim(x);
      }
    }
    forall t | Increasing(t) && (forall x :: x in t <==> Found(search, g, name, x))
      ensures t == r
    {
      IncreasingUnique(t, r);
    }
  }

  // ----- what a device rests on -----

  lemma FirstStep(search: Search, g: Graph, name: string, x: string)
    requires Reaches(search, g, name, x) && x != name
    ensures exists next :: next in Next(search, g, name) && Reaches(search, g, next, x)
  {
    var p :| Path(search, g, p) && p[0] == name && p[|p| - 1] == x;
    var q := p[1..];
    assert p[1] in Next(search, g, p[0]);
    forall i | 0 <= i < |q| - 1
      ensures q[i + 1] in Next(search, g, q[i])
    {
      assert p[i + 2] in Next(search, g, p[i + 1]);
    }
    assert Path(search, g, q) && q[0] == p[1] && q[|q| - 1] == x;
  }

  /** From a device that leads on, a search finds what it finds from where it leads. */
  lemma FoundThrough(search: Search, g: Graph, name: string, x: string)
    requires Next(search, g, name) != []
    ensures Found(search, g, name, x) <==> exists next :: next in Next(search, g, name) && Found(search, g, next, x)
  {
    if Found(search, g, name, x) {
      FirstStep(search, g, name, x);
      var next :| next in Next(search, g, name) && Reaches(search, g, next, x);
      assert Found(search, g, next, x);
    }
    if next :| next in Next(search, g, name) && Found(search, g, next, x) {
      ReachesStep(search, g, name, next, x);
    }
  }

  /** A device on top of others rests on whatever those rest on, in graphs with cycles and
      shared devices too. */
  lemma RestsOnSlaves(search: Search, g: Graph, name: string, x: string)
    requires name in g && g[name].slaves != []
    ensures Found(search, g, name, x) <==> exists slave :: slave in g[name].slaves && Found(search, g, slave, x)
  {
    FoundThrough(search, g, name, x);
  }

  /** A partition with no device below it rests on the disks of its disk; as a terminal
      device it stands for itself. */
  lemma PartitionRestsOnDisk(g: Graph, name: string, x: string)
    requires name in g && g[name].slaves == [] && g[name].parent != ""
    ensures Found(Disks, g, name, x) <==> Found(Disks, g, g[name].parent, x)
    ensures Found(Terminals, g, name, x) <==> x == name && !StartsWith(name, "dm-")
  {
    FoundThrough(Disks, g, name, x);
    assert Next(Disks, g, name) == [g[name].parent];
    EndsHere(Terminals, g, name, x);
    PrefixStarts(name, "dm-");
  }

  lemma EndsHere(search: Search, g: Graph, name: string, x: string)
    requires Next(search, g, name) == []
    ensures Found(search, g, name, x) <==> x == name && Accepts(search, g, name)
  {
    ReachesSelf(search, g, name);
    if Reaches(search, g, name, x) && x != name { FirstStep(search, g, name, x); }
  }

  /** A device with nothing below it that is no partition stands for itself, unless it is
      virtual. */
  lemma WholeDiskIsItself(g: Graph, name: string, x: string)
    requires name in g ==> g[name].slaves == [] && g[name].parent == ""
    ensures Found(Terminals, g, name, x) <==> x == name && !StartsWith(name, "dm-")
    ensures Found(Disks, g, name, x) <==>
              && x == name && !StartsWith(name, "dm-") && !StartsWith(name, "loop")
              && !StartsWith(name, "ram") && !StartsWith(name, "zram")
  {
    AcceptsByName(g, name);
    EndsHere(Terminals, g, name, x);
    EndsHere(Disks, g, name, x);
  }
}
