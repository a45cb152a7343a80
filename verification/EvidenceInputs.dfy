/**
 * The inputs of an evidence digest: which local packages belong to it, by following path
 * dependencies, and the framing that makes the hashed bytes stand for exactly one set of files.
 */
module EvidenceInputs {
  import opened Prelude
  import opened BigEndian

  // The dependency worklist.

  datatype EvidenceError = StartMissing | MissingFromMetadata | AbsentDependency | UnreadablePath

  /** A dependency; a registry one has no path, a path one may fail to resolve. */
  datatype Dependency = Registry(name: nat) | Local(name: nat, canonical: Option<nat>)

  datatype Package = Package(name: nat, path: nat, dependencies: seq<Dependency>)

  /** Some package of the metadata has this path and name. */
  predicate Known(packages: seq<Package>, path: nat, name: nat) {
    exists k :: 0 <= k < |packages| && packages[k].path == path && packages[k].name == name
  }

  predicate HasPath(packages: seq<Package>, path: nat) {
    exists k :: 0 <= k < |packages| && packages[k].path == path
  }

  function Paths(packages: seq<Package>): set<nat> {
    set k | 0 <= k < |packages| :: packages[k].path
  }

  /** The first package with a path. */
  function FirstAt(packages: seq<Package>, path: nat): (p: Package)
    requires HasPath(packages, path)
    ensures exists k :: 0 <= k < |packages| && packages[k] == p && p.path == path
                        && forall j :: 0 <= j < k ==> packages[j].path != path
  {
    if packages[0].path == path then packages[0] else
      var k :| 0 <= k < |packages| && packages[k].path == path;
      assert packages[1..][k - 1] == packages[k];
      var first := FirstAt(packages[1..], path);
      var i :| 0 <= i < |packages[1..]| && packages[1..][i] == first && forall j :: 0 <= j < i ==> packages[1..][j].path != path;
      assert packages[i + 1] == first;
      assert forall j :: 1 <= j < i + 1 ==> packages[j] == packages[1..][j - 1];
      first
  }

  predicate IsListed(packages: seq<Package>, path: nat, name: nat) {
    !forall p :: p in packages ==> p.path != path || p.name != name
  }

  /** The path of the dependency resolves, but no package of the metadata has it and the name. */
  predicate IsAbsent(packages: seq<Package>, d: Dependency) {
    d.Local? && d.canonical.Some? && !IsListed(packages, d.canonical.value, d.name)
  }

  /** The dependency leads nowhere: its path does not resolve, or the metadata lacks it. */
  predicate Broken(packages: seq<Package>, d: Dependency) {
    d.Local? && (d.canonical == None || IsAbsent(packages, d))
  }

  /** No dependency of the package at this path is broken. */
  predicate Sound(packages: seq<Package>, path: nat) {
    HasPath(packages, path) && forall d :: d in FirstAt(packages, path).dependencies ==> !Broken(packages, d)
  }

  predicate Targets(d: Dependency, to: nat) {
    d.Local? && d.canonical == Some(to)
  }

  predicate Leads(packages: seq<Package>, from: nat, to: nat) {
    HasPath(packages, from) && exists d :: d in FirstAt(packages, from).dependencies && Targets(d, to)
  }

  /** A chain of path dependencies. */
  predicate Chain(packages: seq<Package>, chain: seq<nat>) {
    forall i :: 0 <= i < |chain| - 1 ==> Leads(packages, chain[i], chain[i + 1])
  }

  ghost predicate Reachable(packages: seq<Package>, start: nat, path: nat) {
    exists chain: seq<nat> :: chain != [] && chain[0] == start && chain[|chain| - 1] == path && Chain(packages, chain)
  }

  /** Some package reachable from the start has a broken path dependency. */
  ghost predicate SomethingBroken(packages: seq<Package>, start: nat) {
    exists path :: Reachable(packages, start, path) && HasPath(packages, path) && !Sound(packages, path)
  }

  lemma ReachableStep(packages: seq<Package>, start: nat, from: nat, to: nat)
    requires Reachable(packages, start, from) && Leads(packages, from, to)
    ensures Reachable(packages, start, to)
  {
    var chain :| chain != [] && chain[0] == start && chain[|chain| - 1] == from && Chain(packages, chain);
    var longer := chain + [to];
    assert Chain(packages, longer);
    assert longer[|longer| - 1] == to;
  }

  /** A set that contains the start and is closed under path dependencies contains all that is reachable. */
  lemma {:induction false} ClosedContains(packages: seq<Package>, closed: set<nat>, chain: seq<nat>)
    requires chain != [] && chain[0] in closed && Chain(packages, chain)
    requires forall from, to :: from in closed && Leads(packages, from, to) ==> to in closed
    ensures chain[|chain| - 1] in closed
    decreases |chain|
  {
    if |chain| > 1 {
      ClosedContains(packages, closed, chain[..|chain| - 1]);
      assert Leads(packages, chain[|chain| - 2], chain[|chain| - 1]);
    }
  }

  /** Adds the targets of one package's path dependencies to the queue, or stops at a broken one. */
  method EnqueueDependencies(packages: seq<Package>, from: nat, queue: seq<nat>) returns (r: Result<seq<nat>, EvidenceError>)
    requires HasPath(packages, from)
    ensures r.Ok? <==> Sound(packages, from)
    ensures r.Ok? ==> forall to: nat :: to in r.value <==> to in queue || Leads(packages, from, to)
    ensures r.Err? ==>
              exists d :: d in FirstAt(packages, from).dependencies && d.Local?
                && ((r.error == UnreadablePath && d.canonical == None) || (r.error == AbsentDependency && IsAbsent(packages, d)))
  {
    var dependencies := FirstAt(packages, from).dependencies;
    var next := queue;
    for i := 0 to |dependencies|
      invariant forall j :: 0 <= j < i ==> !Broken(packages, dependencies[j])
      invariant forall to: nat :: to in next <==> to in queue || exists j :: 0 <= j < i && Targets(dependencies[j], to)
    {
      var d := dependencies[i];
      assert d in dependencies;
      if d.Local? {
        if d.canonical.None? { return Err(UnreadablePath); }
        if !Known(packages, d.canonical.value, d.name) { return Err(AbsentDependency); }
        next := next + [d.canonical.value];
      }
    }
    assert forall to: nat :: Leads(packages, from, to) <==> exists j :: 0 <= j < |dependencies| && Targets(dependencies[j], to);
    r := Ok(next);
  }

  /** What the worklist keeps: everything seen is reachable and known, and visited packages are sound and followed up. */
  ghost predicate Worklist(packages: seq<Package>, start: nat, visited: set<nat>, queue: seq<nat>) {
    && (start in visited || start in queue)
    && (forall p: nat :: p in queue ==> Reachable(packages, start, p) && HasPath(packages, p))
    && (forall p: nat :: p in visited ==> Reachable(packages, start, p) && Sound(packages, p) && p in Paths(packages))
    && (forall from: nat, to: nat :: from in visited && Leads(packages, from, to) ==> to in visited || to in queue)
  }

  lemma SkipVisited(packages: seq<Package>, start: nat, visited: set<nat>, queue: seq<nat>)
    requires queue != [] && Worklist(packages, start, visited, queue) && queue[0] in visited
    ensures Worklist(packages, start, visited, queue[1..])
  {
    assert forall p: nat :: p in queue <==> p == queue[0] || p in queue[1..];
  }

  lemma Visit(packages: seq<Package>, start: nat, visited: set<nat>, queue: seq<nat>, next: seq<nat>)
    requires queue != [] && Worklist(packages, start, visited, queue)
    requires Sound(packages, queue[0])
    requires forall to: nat :: to in next <==> to in queue[1..] || Leads(packages, queue[0], to)
    ensures Worklist(packages, start, visited + {queue[0]}, next)
  {
    var path := queue[0];
    assert path in queue && forall p: nat :: p in queue <==> p == path || p in queue[1..];
    assert path in Paths(packages);
    forall to: nat | to in next ensures Reachable(packages, start, to) && HasPath(packages, to) {
      if Leads(packages, path, to) {
        ReachableStep(packages, start, path, to);
        var d :| d in FirstAt(packages, path).dependencies && Targets(d, to);
        assert !Broken(packages, d);
      }
    }
  }

  /**
   * `local_dependency_closure` on resolved metadata: the answer is exactly the packages reachable
   * from the start; it fails exactly when something reachable is broken, and never because a
   * queued package is missing from the metadata.
   */
  method LocalDependencyClosure(packages: seq<Package>, rootName: nat, rootPath: nat)
    returns (r: Result<set<nat>, EvidenceError>)
    ensures r == Err(StartMissing) <==> !IsListed(packages, rootPath, rootName)
    ensures r != Err(MissingFromMetadata)
    ensures IsListed(packages, rootPath, rootName) ==> (r.Err? <==> SomethingBroken(packages, rootPath))
    ensures r.Ok? ==> forall path: nat :: path in r.value <==> Reachable(packages, rootPath, path)
  {
    if !Known(packages, rootPath, rootName) { return Err(StartMissing); }
    StartReachable(packages, rootPath);
    var visited: set<nat> := {};
    var queue := [rootPath];
    while queue != []
      invariant Worklist(packages, rootPath, visited, queue)
      decreases |Paths(packages) - visited|, |queue|
    {
      var path := queue[0];
      assert path in queue;
      if path in visited {
        SkipVisited(packages, rootPath, visited, queue);
        queue := queue[1..];
      } else {
        if !HasPath(packages, path) { return Err(MissingFromMetadata); }
        var enqueued := EnqueueDependencies(packages, path, queue[1..]);
        if enqueued.Err? { return Err(enqueued.error); }
        Visit(packages, rootPath, visited, queue, enqueued.value);
        SmallerDifference(Paths(packages), visited, path);
        visited := visited + {path};
        queue := enqueued.value;
      }
    }
    ClosureIsExact(packages, rootPath, visited);
    r := Ok(visited);
  }

  lemma StartReachable(packages: seq<Package>, start: nat)
    ensures Reachable(packages, start, start)
  {
    assert Chain(packages, [start]);
  }

  lemma SmallerDifference(all: set<nat>, visited: set<nat>, path: nat)
    requires path in all && path !in visited
    ensures |all - (visited + {path})| < |all - visited|
  {
    assert all - visited == (all - (visited + {path})) + {path};
  }

  lemma ClosureIsExact(packages: seq<Package>, start: nat, visited: set<nat>)
    requires Worklist(packages, start, visited, [])
    ensures forall path: nat :: path in visited <==> Reachable(packages, start, path)
    ensures !SomethingBroken(packages, start)
  {
    forall path: nat | Reachable(packages, start, path) ensures path in visited {
      var chain :| chain != [] && chain[0] == start && chain[|chain| - 1] == path && Chain(packages, chain);
      ClosedContains(packages, visited, chain);
    }
  }

  // The framing of the hashed files.

  datatype Input = Input(name: seq<Byte>, bytes: seq<Byte>)

  predicate Framable(input: Input) {
    |input.name| < U64_LIMIT && |input.bytes| < U64_LIMIT
  }

  lemma LengthFits()
    ensures Pow256(8) == U64_LIMIT
  {
    assert Pow256(4) == 256 * Pow256(3) && Pow256(3) == 256 * Pow256(2) && Pow256(2) == 256 * 256;
    assert Pow256(8) == 256 * Pow256(7) && Pow256(7) == 256 * Pow256(6) && Pow256(6) == 256 * Pow256(5);
    assert Pow256(5) == 256 * Pow256(4);
  }

  predicate AllFramable(inputs: seq<Input>) {
    forall k :: 0 <= k < |inputs| ==> Framable(inputs[k])
  }

  /** A byte string behind its length as eight bytes. */
  function Prefixed(bytes: seq<Byte>): seq<Byte>
    requires |bytes| < U64_LIMIT
  {
    LengthFits();
    Encode(|bytes|, 8) + bytes
  }

  /** What is fed to the hash for a list of files. */
  function Framing(inputs: seq<Input>): seq<Byte>
    requires AllFramable(inputs)
  {
    if inputs == [] then []
    else
      assert Framable(inputs[0]);
      Prefixed(inputs[0].name) + Prefixed(inputs[0].bytes) + Framing(inputs[1..])
  }

  /** Reads one length-prefixed string and what follows it. */
  function ReadPrefixed(stream: seq<Byte>): Option<(seq<Byte>, seq<Byte>)> {
    if |stream| < 8 || |stream| - 8 < Decode(stream[..8]) then None
    else Some((stream[8..8 + Decode(stream[..8])], stream[8 + Decode(stream[..8])..]))
  }

  /** The parser that undoes the framing. */
  function Parse(stream: seq<Byte>): Option<seq<Input>>
    decreases |stream|
  {
    if stream == [] then Some([])
    else
      match ReadPrefixed(stream)
      case None => None
      case Some((name, afterName)) =>
        match ReadPrefixed(afterName)
        case None => None
        case Some((bytes, rest)) =>
          match Parse(rest)
          case None => None
          case Some(inputs) => Some([Input(name, bytes)] + inputs)
  }

  lemma ReadBack(bytes: seq<Byte>, rest: seq<Byte>)
    requires |bytes| < U64_LIMIT
    ensures ReadPrefixed(Prefixed(bytes) + rest) == Some((bytes, rest))
  {
    LengthFits();
    DecodeEncode(|bytes|, 8);
    var stream := Prefixed(bytes) + rest;
    assert stream[..8] == Encode(|bytes|, 8);
    assert stream[8..8 + |bytes|] == bytes;
  }

  lemma ParseOne(first: Input, rest: seq<Byte>, inputs: seq<Input>)
    requires Framable(first) && Parse(rest) == Some(inputs)
    ensures Parse(Prefixed(first.name) + Prefixed(first.bytes) + rest) == Some([first] + inputs)
  {
    var afterName := Prefixed(first.bytes) + rest;
    var stream := Prefixed(first.name) + afterName;
    assert Prefixed(first.name) + Prefixed(first.bytes) + rest == stream;
    ReadBack(first.name, afterName);
    ReadBack(first.bytes, rest);
    assert |Prefixed(first.name)| >= 8;
    assert stream != [];
  }

  lemma FramingStep(inputs: seq<Input>, first: Input, rest: seq<Input>)
    requires AllFramable(inputs) && AllFramable(rest) && Framable(first) && inputs == [first] + rest
    ensures Framing(inputs) == Prefixed(first.name) + Prefixed(first.bytes) + Framing(rest)
  {
    assert inputs[1..] == rest;
  }

  /** Parsing a framing gives the files back. */
  lemma {:induction false} ParseFraming(inputs: seq<Input>)
    requires AllFramable(inputs)
    ensures Parse(Framing(inputs)) == Some(inputs)
    decreases |inputs|
  {
    if inputs != [] {
      var first, rest := inputs[0], inputs[1..];
      assert Framable(first);
      ParseFraming(rest);
      ParseOne(first, Framing(rest), rest);
      assert inputs == [first] + rest;
      FramingStep(inputs, first, rest);
    }
  }

  /** The stream of one file: the length of its name in eight bytes, the name, the length of its content, the content. */
  ghost predicate SpellsOut(stream: seq<Byte>, input: Input) {
    var n, m := |input.name|, |input.bytes|;
    && |stream| == 8 + n + 8 + m
    && (forall k :: 0 <= k < n ==> stream[8 + k] == input.name[k])
    && (forall k :: 0 <= k < m ==> stream[8 + n + 8 + k] == input.bytes[k])
    && Decode(stream[..8]) == n
    && Decode(stream[8 + n..8 + n + 8]) == m
  }

  /** The framing of a list is the streams of its files one after the other. */
  lemma FramingIs(input: Input, inputs: seq<Input>)
    requires Framable(input) && AllFramable(inputs) && AllFramable([input] + inputs)
    ensures var stream, rest := Framing([input] + inputs), Framing(inputs);
            |rest| <= |stream| && stream[|stream| - |rest|..] == rest && SpellsOut(stream[..|stream| - |rest|], input)
  {
    FramingStep([input] + inputs, input, inputs);
    LengthFits();
    DecodeEncode(|input.name|, 8);
    DecodeEncode(|input.bytes|, 8);
    OneStream(input, Encode(|input.name|, 8), Encode(|input.bytes|, 8));
    var one := Prefixed(input.name) + Prefixed(input.bytes);
    assert Framing([input] + inputs) == one + Framing(inputs);
  }

  lemma OneStream(input: Input, n: seq<Byte>, m: seq<Byte>)
    requires |n| == |m| == 8 && Decode(n) == |input.name| && Decode(m) == |input.bytes|
    ensures SpellsOut((n + input.name) + (m + input.bytes), input)
  {
    Parts(n, input.name, m, input.bytes);
  }

  lemma Parts(n: seq<Byte>, name: seq<Byte>, m: seq<Byte>, bytes: seq<Byte>)
    requires |n| == |m| == 8
    ensures var stream := (n + name) + (m + bytes);
            && |stream| == 16 + |name| + |bytes|
            && stream[..8] == n && stream[8 + |name|..8 + |name| + 8] == m
            && (forall k :: 0 <= k < |name| ==> stream[8 + k] == name[k])
            && (forall k :: 0 <= k < |bytes| ==> stream[8 + |name| + 8 + k] == bytes[k])
  {
  }

  /** The list is the map in increasing order of names. */
  ghost predicate Lists(inputs: seq<Input>, files: map<seq<Byte>, seq<Byte>>) {
    && (forall i, j :: 0 <= i < j < |inputs| ==> LexLess(inputs[i].name, inputs[j].name))
    && (forall k :: 0 <= k < |inputs| ==> inputs[k].name in files && files[inputs[k].name] == inputs[k].bytes)
    && (forall name :: name in files ==> exists k :: 0 <= k < |inputs| && inputs[k].name == name)
  }

  lemma ListsDetermine(inputs: seq<Input>, left: map<seq<Byte>, seq<Byte>>, right: map<seq<Byte>, seq<Byte>>)
    requires Lists(inputs, left) && Lists(inputs, right)
    ensures left == right
  {
    forall name | name in left ensures name in right && left[name] == right[name] {
      var k :| 0 <= k < |inputs| && inputs[k].name == name;
      assert inputs[k].name in right;
    }
    forall name | name in right ensures name in left {
      var k :| 0 <= k < |inputs| && inputs[k].name == name;
      assert inputs[k].name in left;
    }
  }

  /** The bytes hashed for two sets of files are equal only if the files are. */
  lemma FramingIsInjective(a: seq<Input>, b: seq<Input>, left: map<seq<Byte>, seq<Byte>>, right: map<seq<Byte>, seq<Byte>>)
    requires Lists(a, left) && Lists(b, right)
    requires AllFramable(a) && AllFramable(b)
    requires Framing(a) == Framing(b)
    ensures left == right
  {
    ParseFraming(a);
    ParseFraming(b);
    ListsDetermine(a, left, right);
  }

  /** The loop that feeds the hash. */
  method FeedHash(inputs: seq<Input>) returns (stream: seq<Byte>)
    requires AllFramable(inputs)
    ensures stream == Framing(inputs)
  {
    stream := [];
    var left := inputs;
    while left != []
      invariant AllFramable(left) && stream + Framing(left) == Framing(inputs)
      decreases |left|
    {
      assert Framable(left[0]);
      FedOne(stream, Prefixed(left[0].name), Prefixed(left[0].bytes), Framing(left[1..]));
      stream := stream + Prefixed(left[0].name);
      stream := stream + Prefixed(left[0].bytes);
      left := left[1..];
    }
  }

  lemma FedOne(stream: seq<Byte>, name: seq<Byte>, bytes: seq<Byte>, rest: seq<Byte>)
    ensures stream + (name + bytes + rest) == stream + name + bytes + rest
  {
  }
}
