/** `flattenJson` (`webapp/src/app/maker-api.service.ts`): a configuration tree as one table of dotted keys. */
module FlattenedJson {

  /** A JSON value; the members of an object, or the elements of an array under their indices, in the order in which
      `for ... in` enumerates them. */
  datatype Json = Null | Leaf(value: string) | Node(members: seq<Member>)

  datatype Member = Member(key: string, value: Json)

  type Table = map<string, string>

  // ---------- the table a tree flattens to ----------

  function Dotted(key: string, rest: string): string {
    key + "." + rest
  }

  lemma DottedInjective(key: string, x: string, y: string)
    requires Dotted(key, x) == Dotted(key, y)
    ensures x == y
  {
    var n := |key| + 1;
    assert x == Dotted(key, x)[n..] && y == Dotted(key, y)[n..];
  }

  lemma AllDottedInjective(key: string)
    ensures forall x, y | Dotted(key, x) == Dotted(key, y) :: x == y
  {
    forall x, y | Dotted(key, x) == Dotted(key, y) ensures x == y {
      DottedInjective(key, x, y);
    }
  }

  function Prefixed(key: string, table: Table): Table {
    AllDottedInjective(key);
    map x | x in table :: Dotted(key, x) := table[x]
  }

  function Entries(member: Member): Table {
    if member.value.Leaf? then map[member.key := member.value.value]
    else Prefixed(member.key, Flatten(member.value))
  }

  /** Later members overwrite earlier ones. */
  function FlattenMembers(members: seq<Member>): Table {
    if members == [] then map[]
    else FlattenMembers(members[..|members| - 1]) + Entries(members[|members| - 1])
  }

  function Flatten(input: Json): Table {
    if input.Node? then FlattenMembers(input.members) else map[]
  }

  /** Everything of type `object` reaches this function; the loop over `null` has no iterations. */
  method FlattenJson(input: Json) returns (output: Table)
    requires !input.Leaf?
    ensures output == Flatten(input)
    decreases input
  {
    output := map[];
    if input.Null? {
      return;
    }
    var n := 0;
    while n < |input.members|
      invariant 0 <= n <= |input.members|
      invariant output == FlattenMembers(input.members[..n])
    {
      var i, value := input.members[n].key, input.members[n].value;
      assert input.members[..n + 1][..n] == input.members[..n];
      if !value.Leaf? {
        var flatObject := FlattenJson(value);
        output := CopyPrefixed(i, flatObject, output);
      } else {
        output := output[i := value.value];
      }
      n := n + 1;
    }
    assert input.members[..n] == input.members;
  }

  /** The part of the table whose keys are not waiting. */
  function Without(table: Table, todo: set<string>): Table {
    map x | x in table && x !in todo :: table[x]
  }

  method CopyPrefixed(i: string, flatObject: Table, output: Table) returns (copied: Table)
    ensures copied == output + Prefixed(i, flatObject)
  {
    copied := output;
    var todo := flatObject.Keys;
    CopyEnds(i, flatObject, output);
    hide *;
    while todo != {}
      invariant todo <= flatObject.Keys
      invariant copied == output + Prefixed(i, Without(flatObject, todo))
      decreases |todo|
    {
      var x :| x in todo;
      CopyNext(i, flatObject, output, todo, x);
      copied := copied[Dotted(i, x) := flatObject[x]];
      todo := todo - {x};
    }
  }

  lemma CopyEnds(i: string, flatObject: Table, output: Table)
    ensures output + Prefixed(i, Without(flatObject, flatObject.Keys)) == output
    ensures Without(flatObject, {}) == flatObject
  {
    assert Without(flatObject, flatObject.Keys) == map[];
  }

  lemma CopyNext(i: string, flatObject: Table, output: Table, todo: set<string>, x: string)
    requires x in todo && todo <= flatObject.Keys
    ensures output + Prefixed(i, Without(flatObject, todo - {x})) ==
            (output + Prefixed(i, Without(flatObject, todo)))[Dotted(i, x) := flatObject[x]]
  {
    hide Prefixed, Dotted;
    var done := Without(flatObject, todo);
    assert Without(flatObject, todo - {x}) == done[x := flatObject[x]];
    PrefixedMore(i, done, x, flatObject[x]);
    AddLater(output, Prefixed(i, done), Dotted(i, x), flatObject[x]);
  }

  lemma AddLater(a: Table, b: Table, key: string, v: string)
    ensures (a + b)[key := v] == a + b[key := v]
  {
  }

  lemma PrefixedMore(key: string, table: Table, x: string, v: string)
    requires x !in table
    ensures Prefixed(key, table[x := v]) == Prefixed(key, table)[Dotted(key, x) := v]
  {
    hide Dotted;
    AllDottedInjective(key);
    var more := Prefixed(key, table[x := v]);
    assert x in table[x := v] && more[Dotted(key, x)] == v;
    forall y | y in table ensures Dotted(key, y) in more && more[Dotted(key, y)] == table[y] {
      assert y in table[x := v];
    }
  }

  // ---------- leaf paths ----------

  type Path = seq<string>

  /** Following `path` from the root of `input` ends at a leaf that carries `v`. */
  ghost predicate HasLeaf(input: Json, path: Path, v: string)
    decreases |path|
  {
    if path == [] then input == Leaf(v)
    else input.Node? && exists m | m in input.members :: m.key == path[0] && HasLeaf(m.value, path[1..], v)
  }

  function Join(path: Path): string
    requires path != []
  {
    if |path| == 1 then path[0] else Dotted(path[0], Join(path[1..]))
  }

  predicate DotFree(key: string) {
    '.' !in key
  }

  /** The keys of an object are pairwise different, throughout the tree. */
  ghost predicate DistinctKeys(input: Json)
    decreases input
  {
    input.Node? ==>
      && (forall i, j | 0 <= i < j < |input.members| :: input.members[i].key != input.members[j].key)
      && (forall i | 0 <= i < |input.members| :: DistinctKeys(input.members[i].value))
  }

  ghost predicate DotFreeKeys(input: Json)
    decreases input
  {
    input.Node? ==>
      forall i | 0 <= i < |input.members| :: DotFree(input.members[i].key) && DotFreeKeys(input.members[i].value)
  }

  // ---------- every entry comes from a leaf ----------

  lemma {:induction false} EntryComesFrom(members: seq<Member>, k: string) returns (i: nat)
    requires k in FlattenMembers(members)
    ensures i < |members| && k in Entries(members[i]) && Entries(members[i])[k] == FlattenMembers(members)[k]
  {
    hide Entries;
    var n := |members| - 1;
    if k in Entries(members[n]) {
      i := n;
    } else {
      i := EntryComesFrom(members[..n], k);
    }
  }

  lemma LeafUnder(input: Json, i: nat, path: Path, v: string)
    requires input.Node? && i < |input.members| && HasLeaf(input.members[i].value, path, v)
    ensures HasLeaf(input, [input.members[i].key] + path, v)
  {
    var m, full := input.members[i], [input.members[i].key] + path;
    assert m in input.members && full[1..] == path;
  }

  /** Whatever the keys are: each entry of the table is the dotted path of a leaf, with the value of that leaf. */
  lemma {:induction false} EveryEntryIsALeaf(input: Json, k: string) returns (path: Path)
    requires !input.Leaf? && k in Flatten(input)
    ensures path != [] && Join(path) == k && HasLeaf(input, path, Flatten(input)[k])
    decreases input
  {
    var i := EntryComesFrom(input.members, k);
    var m := input.members[i];
    if m.value.Leaf? {
      path := [m.key];
      LeafUnder(input, i, [], m.value.value);
      assert [m.key] + [] == [m.key];
    } else {
      var x :| x in Flatten(m.value) && k == Dotted(m.key, x);
      AllDottedInjective(m.key);
      var rest := EveryEntryIsALeaf(m.value, x);
      path := [m.key] + rest;
      LeafUnder(input, i, rest, Flatten(input)[k]);
      assert path[1..] == rest;
    }
  }

  // ---------- every leaf has its entry ----------

  /** A dot-free key is the part of a dotted key before its first dot. */
  lemma FirstKey(a: string, x: string, b: string, y: string)
    requires DotFree(a) && DotFree(b)
    ensures a != Dotted(b, y)
    ensures Dotted(a, x) == Dotted(b, y) ==> a == b && x == y
  {
    assert Dotted(b, y)[|b|] == '.';
    if Dotted(a, x) == Dotted(b, y) {
      var whole := Dotted(a, x);
      assert whole[|a|] == '.' && whole[|b|] == '.';
      assert forall i | 0 <= i < |a| :: whole[i] == a[i];
      assert forall i | 0 <= i < |b| :: whole[i] == b[i];
      assert |a| == |b|;
      assert a == whole[..|a|] && b == whole[..|b|];
      DottedInjective(a, x, y);
    }
  }

  /** Keys below different dot-free keys never meet. */
  lemma EntriesApart(m: Member, other: Member, k: string)
    requires DotFree(m.key) && DotFree(other.key) && m.key != other.key && k in Entries(m)
    ensures k !in Entries(other)
  {
    if k in Entries(other) {
      var x :| if m.value.Leaf? then k == m.key else k == Dotted(m.key, x);
      var y :| if other.value.Leaf? then k == other.key else k == Dotted(other.key, y);
      FirstKey(m.key, x, other.key, y);
      FirstKey(other.key, y, m.key, x);
    }
  }

  lemma {:induction false} EntrySurvives(members: seq<Member>, i: nat, k: string)
    requires i < |members| && k in Entries(members[i])
    requires forall j | i < j < |members| :: k !in Entries(members[j])
    ensures k in FlattenMembers(members) && FlattenMembers(members)[k] == Entries(members[i])[k]
  {
    hide Entries;
    var n := |members| - 1;
    if i < n {
      EntrySurvives(members[..n], i, k);
    }
  }

  lemma {:induction false} EveryLeafHasItsEntry(input: Json, path: Path, v: string)
    requires DistinctKeys(input) && DotFreeKeys(input) && path != [] && HasLeaf(input, path, v)
    ensures Join(path) in Flatten(input) && Flatten(input)[Join(path)] == v
    decreases |path|
  {
    var m :| m in input.members && m.key == path[0] && HasLeaf(m.value, path[1..], v);
    var i :| 0 <= i < |input.members| && input.members[i] == m;
    if |path| > 1 {
      EveryLeafHasItsEntry(m.value, path[1..], v);
      AllDottedInjective(m.key);
    }
    var k := Join(path);
    assert k in Entries(m) && Entries(m)[k] == v;
    forall j | i < j < |input.members| ensures k !in Entries(input.members[j]) {
      EntriesApart(m, input.members[j], k);
    }
    EntrySurvives(input.members, i, k);
  }

  /** For a tree with dot-free keys the table holds exactly the dotted leaf paths, each with the value of its leaf. */
  lemma FlattenIsLeaves(input: Json, k: string, v: string)
    requires !input.Leaf? && DistinctKeys(input) && DotFreeKeys(input)
    ensures (k in Flatten(input) && Flatten(input)[k] == v) <==>
            exists path: Path :: path != [] && Join(path) == k && HasLeaf(input, path, v)
  {
    if k in Flatten(input) && Flatten(input)[k] == v {
      var path := EveryEntryIsALeaf(input, k);
    }
    forall path: Path | path != [] && Join(path) == k && HasLeaf(input, path, v)
      ensures k in Flatten(input) && Flatten(input)[k] == v
    {
      EveryLeafHasItsEntry(input, path, v);
    }
  }

  // ---------- the tree can be rebuilt ----------

  /** No object is empty and nothing is `null`. */
  ghost predicate Solid(input: Json)
    decreases input
  {
    !input.Null? && (input.Node? ==> input.members != []
                                     && forall i | 0 <= i < |input.members| :: Solid(input.members[i].value))
  }

  ghost predicate Flattenable(input: Json) {
    DistinctKeys(input) && DotFreeKeys(input) && Solid(input)
  }

  /** The same tree, up to the order of the members of its objects. */
  ghost predicate SameTree(a: Json, b: Json)
    decreases a
  {
    match a
    case Null => b == Null
    case Leaf(v) => b == Leaf(v)
    case Node(members) =>
      && b.Node?
      && (forall i | 0 <= i < |members| :: HasTwin(members[i], b.members))
      && (forall j | 0 <= j < |b.members| :: HasKey(members, b.members[j].key))
  }

  ghost predicate HasTwin(m: Member, others: seq<Member>)
    decreases m
  {
    exists j | 0 <= j < |others| :: others[j].key == m.key && SameTree(m.value, others[j].value)
  }

  ghost predicate HasKey(members: seq<Member>, key: string) {
    exists i | 0 <= i < |members| :: members[i].key == key
  }

  lemma TwinOf(a: Json, b: Json, i: nat) returns (j: nat)
    requires a.Node? && SameTree(a, b) && i < |a.members|
    ensures b.Node? && j < |b.members| && b.members[j].key == a.members[i].key
    ensures SameTree(a.members[i].value, b.members[j].value)
  {
    assert HasTwin(a.members[i], b.members);
    j :| 0 <= j < |b.members| && b.members[j].key == a.members[i].key && SameTree(a.members[i].value, b.members[j].value);
  }

  lemma TwinBack(a: Json, b: Json, j: nat) returns (i: nat)
    requires a.Node? && b.Node? && SameTree(a, b) && DistinctKeys(b) && j < |b.members|
    ensures i < |a.members| && SameTree(a.members[i].value, b.members[j].value)
    ensures a.members[i].key == b.members[j].key
  {
    assert HasKey(a.members, b.members[j].key);
    i :| 0 <= i < |a.members| && a.members[i].key == b.members[j].key;
    var k := TwinOf(a, b, i);
    assert k == j;
  }

  lemma {:induction false} SomeLeaf(input: Json) returns (path: Path, v: string)
    requires Solid(input)
    ensures HasLeaf(input, path, v)
    decreases input
  {
    if input.Leaf? {
      path, v := [], input.value;
    } else {
      path, v := SomeLeaf(input.members[0].value);
      LeafUnder(input, 0, path, v);
      path := [input.members[0].key] + path;
    }
  }

  ghost predicate SameLeaves(a: Json, b: Json) {
    forall path, v :: HasLeaf(a, path, v) <==> HasLeaf(b, path, v)
  }

  /** A member whose key both trees use has the same leaves in both. */
  lemma MemberLeaves(a: Json, i: nat, path: Path, v: string)
    requires a.Node? && DistinctKeys(a) && i < |a.members|
    ensures HasLeaf(a, [a.members[i].key] + path, v) <==> HasLeaf(a.members[i].value, path, v)
  {
    var full := [a.members[i].key] + path;
    assert full[1..] == path;
    if HasLeaf(a, full, v) {
      var m :| m in a.members && m.key == full[0] && HasLeaf(m.value, full[1..], v);
      var j :| 0 <= j < |a.members| && a.members[j] == m;
      assert j == i;
    }
    if HasLeaf(a.members[i].value, path, v) {
      LeafUnder(a, i, path, v);
    }
  }

  lemma MatchingMember(a: Json, b: Json, i: nat) returns (j: nat)
    requires a.Node? && b.Node? && DistinctKeys(a) && DistinctKeys(b) && Solid(a) && SameLeaves(a, b)
    requires i < |a.members|
    ensures j < |b.members| && b.members[j].key == a.members[i].key
    ensures SameLeaves(a.members[i].value, b.members[j].value)
  {
    var key := a.members[i].key;
    var path, v := SomeLeaf(a.members[i].value);
    LeafUnder(a, i, path, v);
    assert HasLeaf(b, [key] + path, v);
    var m :| m in b.members && m.key == ([key] + path)[0] && HasLeaf(m.value, ([key] + path)[1..], v);
    j :| 0 <= j < |b.members| && b.members[j] == m;
    forall path, v ensures HasLeaf(a.members[i].value, path, v) <==> HasLeaf(b.members[j].value, path, v) {
      MemberLeaves(a, i, path, v);
      MemberLeaves(b, j, path, v);
      assert HasLeaf(a, [key] + path, v) <==> HasLeaf(b, [key] + path, v);
    }
  }

  lemma {:induction false} LeavesDetermineTree(a: Json, b: Json)
    requires DistinctKeys(a) && DistinctKeys(b) && Solid(a) && Solid(b) && SameLeaves(a, b)
    ensures SameTree(a, b)
    decreases a
  {
    if a.Leaf? {
      assert HasLeaf(a, [], a.value);
    } else if b.Leaf? {
      assert HasLeaf(b, [], b.value);
    } else {
      forall i | 0 <= i < |a.members| ensures HasTwin(a.members[i], b.members) {
        var j := MatchingMember(a, b, i);
        LeavesDetermineTree(a.members[i].value, b.members[j].value);
      }
      forall j | 0 <= j < |b.members| ensures HasKey(a.members, b.members[j].key) {
        var i := MatchingMember(b, a, j);
      }
    }
  }

  /** Dotted paths over dot-free keys are different for different paths. */
  lemma {:induction false} JoinInjective(p: Path, q: Path)
    requires p != [] && q != [] && Join(p) == Join(q)
    requires (forall i | 0 <= i < |p| :: DotFree(p[i])) && (forall i | 0 <= i < |q| :: DotFree(q[i]))
    ensures p == q
    decreases |p|
  {
    var x := if |p| == 1 then "" else Join(p[1..]);
    var y := if |q| == 1 then "" else Join(q[1..]);
    FirstKey(p[0], x, q[0], y);
    FirstKey(q[0], y, p[0], x);
    if |p| > 1 && |q| > 1 {
      JoinInjective(p[1..], q[1..]);
      assert p == [p[0]] + p[1..] && q == [q[0]] + q[1..];
    }
  }

  lemma {:induction false} LeafPathDotFree(input: Json, path: Path, v: string)
    requires DotFreeKeys(input) && HasLeaf(input, path, v)
    ensures forall i | 0 <= i < |path| :: DotFree(path[i])
    decreases |path|
  {
    if path != [] {
      var m :| m in input.members && m.key == path[0] && HasLeaf(m.value, path[1..], v);
      LeafPathDotFree(m.value, path[1..], v);
      assert forall i | 0 < i < |path| :: path[i] == path[1..][i - 1];
    }
  }

  /** An entry under the dotted path of another tree's leaf is a leaf under the same path. */
  lemma LeafOfEntry(input: Json, path: Path, v: string)
    requires input.Node? && DotFreeKeys(input) && path != [] && (forall i | 0 <= i < |path| :: DotFree(path[i]))
    requires Join(path) in Flatten(input) && Flatten(input)[Join(path)] == v
    ensures HasLeaf(input, path, v)
  {
    var found := EveryEntryIsALeaf(input, Join(path));
    LeafPathDotFree(input, found, v);
    JoinInjective(path, found);
  }

  lemma LeafCarriesOver(a: Json, b: Json, path: Path, v: string)
    requires b.Node? && DistinctKeys(a) && DotFreeKeys(a) && DotFreeKeys(b)
    requires Flatten(a) == Flatten(b) && path != [] && HasLeaf(a, path, v)
    ensures HasLeaf(b, path, v)
  {
    EveryLeafHasItsEntry(a, path, v);
    LeafPathDotFree(a, path, v);
    LeafOfEntry(b, path, v);
  }

  lemma {:induction false} SameTreeLeaf(a: Json, b: Json, path: Path, v: string)
    requires SameTree(a, b) && HasLeaf(a, path, v)
    ensures HasLeaf(b, path, v)
    decreases |path|
  {
    if path != [] {
      var m :| m in a.members && m.key == path[0] && HasLeaf(m.value, path[1..], v);
      var i :| 0 <= i < |a.members| && a.members[i] == m;
      var j := TwinOf(a, b, i);
      hide SameTree;
      SameTreeLeaf(m.value, b.members[j].value, path[1..], v);
      LeafUnder(b, j, path[1..], v);
      assert path == [path[0]] + path[1..];
    }
  }

  lemma SameLeavesSameTable(a: Json, b: Json)
    requires a.Node? && b.Node? && Flattenable(a) && Flattenable(b) && SameLeaves(a, b)
    ensures Flatten(a) == Flatten(b)
  {
    forall k | k in Flatten(a) ensures k in Flatten(b) && Flatten(b)[k] == Flatten(a)[k] {
      var path := EveryEntryIsALeaf(a, k);
      EveryLeafHasItsEntry(b, path, Flatten(a)[k]);
    }
    forall k | k in Flatten(b) ensures k in Flatten(a) {
      var path := EveryEntryIsALeaf(b, k);
      EveryLeafHasItsEntry(a, path, Flatten(b)[k]);
    }
  }

  lemma {:induction false} SameTreeBack(a: Json, b: Json, path: Path, v: string)
    requires SameTree(a, b) && DistinctKeys(a) && DistinctKeys(b) && HasLeaf(b, path, v)
    ensures HasLeaf(a, path, v)
    decreases |path|
  {
    if path != [] {
      var m :| m in b.members && m.key == path[0] && HasLeaf(m.value, path[1..], v);
      var j :| 0 <= j < |b.members| && b.members[j] == m;
      var i := TwinBack(a, b, j);
      hide SameTree;
      SameTreeBack(a.members[i].value, m.value, path[1..], v);
      LeafUnder(a, i, path[1..], v);
      assert path == [path[0]] + path[1..];
    }
  }

  /** Two trees with dot-free keys, no empty objects and no nulls flatten to the same table exactly when they are the
      same tree: the tree can be rebuilt from its table. */
  lemma FlattenDeterminesTree(a: Json, b: Json)
    requires a.Node? && b.Node? && Flattenable(a) && Flattenable(b)
    ensures Flatten(a) == Flatten(b) <==> SameTree(a, b)
  {
    if Flatten(a) == Flatten(b) {
      forall path, v ensures HasLeaf(a, path, v) <==> HasLeaf(b, path, v) {
        if path != [] {
          if HasLeaf(a, path, v) { LeafCarriesOver(a, b, path, v); }
          if HasLeaf(b, path, v) { LeafCarriesOver(b, a, path, v); }
        }
      }
      LeavesDetermineTree(a, b);
    }
    if SameTree(a, b) {
      forall path, v ensures HasLeaf(a, path, v) <==> HasLeaf(b, path, v) {
        if HasLeaf(a, path, v) { SameTreeLeaf(a, b, path, v); }
        if HasLeaf(b, path, v) { SameTreeBack(a, b, path, v); }
      }
      SameLeavesSameTable(a, b);
    }
  }

  lemma OneMember(m: Member)
    ensures FlattenMembers([m]) == Entries(m)
  {
    hide Entries;
    assert [m][..0] == [] && FlattenMembers([]) == map[];
    assert map[] + Entries(m) == Entries(m);
  }

  lemma DifferentKeys(a: Json, b: Json)
    requires a.Node? && b.Node? && |a.members| == 1
    requires forall j | 0 <= j < |b.members| :: b.members[j].key != a.members[0].key
    ensures !SameTree(a, b)
  {
    if SameTree(a, b) {
      var j := TwinOf(a, b, 0);
    }
  }

  /** Outside those trees it cannot: a dotted key collides with a path. */
  lemma DottedKeysCollide(v: string)
    ensures var dotted := Node([Member("a.b", Leaf(v))]);
            var nested := Node([Member("a", Node([Member("b", Leaf(v))]))]);
            Flatten(dotted) == Flatten(nested) && !SameTree(dotted, nested)
  {
    var dotted := Node([Member("a.b", Leaf(v))]);
    var nested := Node([Member("a", Node([Member("b", Leaf(v))]))]);
    DifferentKeys(dotted, nested);
    hide FlattenMembers, SameTree;
    OneMember(Member("a.b", Leaf(v)));
    OneMember(Member("b", Leaf(v)));
    OneMember(nested.members[0]);
    assert Dotted("a", "b") == "a.b";
    assert Flatten(nested.members[0].value) == map["b" := v];
    PrefixedMore("a", map[], "b", v);
    assert map[]["b" := v] == map["b" := v];
  }

  /** And empty objects and nulls leave no trace. */
  lemma EmptyObjectsVanish(key: string)
    ensures Flatten(Node([Member(key, Node([]))])) == Flatten(Node([Member(key, Null)])) == Flatten(Node([]))
    ensures !SameTree(Node([Member(key, Node([]))]), Node([]))
  {
    DifferentKeys(Node([Member(key, Node([]))]), Node([]));
    OneMember(Member(key, Node([])));
    OneMember(Member(key, Null));
  }

  /** A leaf within an object within an object is found under the two keys with a dot between them. */
  lemma NestedLeaf(outer: string, inner: string, v: string)
    ensures Flatten(Node([Member(outer, Node([Member(inner, Leaf(v))]))])) == map[outer + "." + inner := v]
  {
    var leaf := Member(inner, Leaf(v));
    var node := Member(outer, Node([leaf]));
    OneMember(leaf);
    OneMember(node);
    assert Flatten(node.value) == map[inner := v];
    hide FlattenMembers;
    PrefixedOne(outer, inner, v);
  }

  lemma PrefixedOne(key: string, x: string, v: string)
    ensures Prefixed(key, map[x := v]) == map[key + "." + x := v]
  {
    AllDottedInjective(key);
    var table: Table := map[x := v];
    assert x in table && Prefixed(key, table)[Dotted(key, x)] == v;
  }
}
