/** The in-place merge of nested maps in pkg/config/config.go, over heap objects that
    can be shared. */
module ConfigMerge {
  import opened ConfigTree

  /** What a map cell holds: a plain value, or a reference to another map. */
  datatype Value = Scalar(text: string) | Table(node: ConfigMap)

  class ConfigMap {
    var entries: map<string, Value>

    constructor ()
      ensures entries == map[]
    {
      entries := map[];
    }
  }

  /** A tree annotated with the map object that holds each table: it names the heap
      cells a configuration occupies, and sharing between two of them is visible. */
  datatype Shape = Bare(text: string) | Owned(node: ConfigMap, children: map<string, Shape>)

  ghost function Nodes(sh: Shape): set<ConfigMap>
  {
    match sh
    case Bare(_) => {}
    case Owned(n, cs) => {n} + set k, m | k in cs && m in Nodes(cs[k]) :: m
  }

  /** No map object occurs twice in the shape. */
  ghost predicate Distinct(sh: Shape)
  {
    match sh
    case Bare(_) => true
    case Owned(n, cs) =>
      && (forall k :: k in cs ==> n !in Nodes(cs[k]) && Distinct(cs[k]))
      && (forall j, k :: j in cs && k in cs && j != k ==> Nodes(cs[j]) !! Nodes(cs[k]))
  }

  function ValueOf(sh: Shape): Value
  {
    match sh
    case Bare(t) => Scalar(t)
    case Owned(n, _) => Table(n)
  }

  ghost function Erase(sh: Shape): Tree
  {
    match sh
    case Bare(t) => Leaf(t)
    case Owned(_, cs) => Dir(map k | k in cs :: Erase(cs[k]))
  }

  /** The heap currently holds exactly this shape. */
  ghost predicate Holds(sh: Shape)
    reads Nodes(sh)
  {
    match sh
    case Bare(_) => true
    case Owned(n, cs) =>
      && n.entries.Keys == cs.Keys
      && forall k :: k in cs ==> n.entries[k] == ValueOf(cs[k]) && Holds(cs[k])
  }

  /** The map objects below key `k`. */
  ghost function Below(sh: Shape, k: string): set<ConfigMap>
    requires sh.Owned?
  {
    if k in sh.children then Nodes(sh.children[k]) else {}
  }

  lemma {:induction false} NodesAllocated(sh: Shape)
    ensures forall n :: n in Nodes(sh) ==> allocated(n)
    decreases sh
  {
    if sh.Owned? {
      assert allocated(sh.node);
      forall k | k in sh.children ensures forall n :: n in Nodes(sh.children[k]) ==> allocated(n) {
        NodesAllocated(sh.children[k]);
      }
    }
  }

  // What replacing one child does to each of the four notions above.

  lemma BelowIn(sh: Shape, k: string)
    requires sh.Owned?
    ensures Below(sh, k) <= Nodes(sh) && sh.node in Nodes(sh)
    ensures Distinct(sh) ==> sh.node !in Below(sh, k)
  {
  }

  lemma SiblingsApart(sh: Shape, j: string, k: string)
    requires sh.Owned? && Distinct(sh) && j != k
    ensures Below(sh, j) !! Below(sh, k)
  {
  }

  lemma EraseWith(sh: Shape, k: string, c: Shape)
    requires sh.Owned?
    ensures Erase(sh.(children := sh.children[k := c])) == Dir(Erase(sh).children[k := Erase(c)])
  {
    var e := Erase(sh.(children := sh.children[k := c])).children;
    assert e == Erase(sh).children[k := Erase(c)];
  }

  lemma NodesWith(sh: Shape, k: string, c: Shape)
    requires sh.Owned?
    ensures Nodes(sh.(children := sh.children[k := c])) <= Nodes(sh) + Nodes(c)
  {
    var cs := sh.children[k := c];
    forall j, m | j in cs && m in Nodes(cs[j]) ensures m in Nodes(sh) + Nodes(c) {
      if j != k {
        BelowIn(sh, j);
      }
    }
  }

  lemma DistinctWith(sh: Shape, k: string, c: Shape)
    requires sh.Owned? && Distinct(sh) && Distinct(c)
    requires (Nodes(sh) - Below(sh, k)) !! Nodes(c)
    ensures Distinct(sh.(children := sh.children[k := c]))
  {
    var cs := sh.children[k := c];
    BelowIn(sh, k);
    forall j | j in cs ensures sh.node !in Nodes(cs[j]) && Distinct(cs[j]) {
    }
    forall j | j in sh.children && j != k ensures Nodes(cs[j]) !! Nodes(c) {
      BelowIn(sh, j);
      assert Nodes(cs[j]) !! Below(sh, k);
    }
  }

  /** The pure merge with the keys of `todo` not yet taken from `s`. */
  ghost function MergeBut(todo: set<string>, d: Tree, s: Tree): map<string, Tree>
    requires d.Dir? && s.Dir?
  {
    map k | k in d.children.Keys + (s.children.Keys - todo) ::
      if k !in s.children || k in todo then d.children[k]
      else if k !in d.children then s.children[k]
      else Merge(d.children[k], s.children[k])
  }

  lemma MergeButEnds(d: Tree, s: Tree)
    requires d.Dir? && s.Dir?
    ensures MergeBut(s.children.Keys, d, s) == d.children
    ensures Dir(MergeBut({}, d, s)) == Merge(d, s)
  {
    var l, m := MergeBut({}, d, s), Merge(d, s).children;
    assert l.Keys == m.Keys;
    forall k | k in l ensures l[k] == m[k] {
    }
    assert l == m;
  }

  lemma MergeButStep(todo: set<string>, d: Shape, r: Shape, s: Shape, key: string, child: Shape)
    requires d.Owned? && s.Owned? && r.Owned?
    requires Erase(r) == Dir(MergeBut(todo, Erase(d), Erase(s)))
    requires key in s.children && key in todo
    requires Erase(child) == if key in d.children then Merge(Erase(d.children[key]), Erase(s.children[key]))
                             else Erase(s.children[key])
    ensures Erase(r.(children := r.children[key := child])) == Dir(MergeBut(todo - {key}, Erase(d), Erase(s)))
  {
    EraseWith(r, key, child);
    assert MergeBut(todo - {key}, Erase(d), Erase(s)) == MergeBut(todo, Erase(d), Erase(s))[key := Erase(child)];
  }

  /** The map objects below every key but `k`. */
  ghost function Beside(sh: Shape, k: string): set<ConfigMap>
    requires sh.Owned?
  {
    set j, m | j in sh.children && j != k && m in Nodes(sh.children[j]) :: m
  }

  ghost predicate HoldsBeside(sh: Shape, k: string)
    requires sh.Owned?
    reads Beside(sh, k)
  {
    forall j :: j in sh.children && j != k ==> Holds(sh.children[j])
  }

  lemma BesideApart(sh: Shape, k: string)
    requires sh.Owned? && Distinct(sh)
    ensures Beside(sh, k) <= Nodes(sh) - {sh.node} - Below(sh, k)
  {
    forall m | m in Beside(sh, k) ensures m in Nodes(sh) && m !in {sh.node} + Below(sh, k) {
      var j :| j in sh.children && j != k && m in Nodes(sh.children[j]);
      SiblingsApart(sh, j, k);
      BelowIn(sh, j);
    }
  }

  ghost function Cells(sh: Shape): map<string, Value>
    requires sh.Owned?
  {
    map j | j in sh.children :: ValueOf(sh.children[j])
  }

  lemma HoldsSplit(sh: Shape, k: string)
    requires sh.Owned?
    ensures Holds(sh) <==> && sh.node.entries == Cells(sh) && HoldsBeside(sh, k)
                           && (k in sh.children ==> Holds(sh.children[k]))
  {
  }

  lemma HoldsWith(sh: Shape, k: string, c: Shape)
    requires sh.Owned? && HoldsBeside(sh, k) && Holds(c)
    requires sh.node.entries == Cells(sh)[k := ValueOf(c)]
    ensures Holds(sh.(children := sh.children[k := c]))
  {
  }

  /** Both sides hold a table under `key`: only the maps below that key change. */
  method MergeTables(dstMap: ConfigMap, srcMap: ConfigMap, ghost key: string, ghost r: Shape, ghost s: Shape)
    returns (ghost child: Shape)
    requires r.Owned? && Distinct(r) && Holds(r) && key in r.children
    requires r.children[key].Owned? && r.children[key].node == dstMap
    requires s.Owned? && Holds(s) && Distinct(s) && key in s.children
    requires s.children[key].Owned? && s.children[key].node == srcMap
    requires Nodes(r.children[key]) !! Nodes(s)
    modifies Nodes(r.children[key])
    ensures Holds(r.(children := r.children[key := child])) && Holds(s)
    ensures Distinct(child)
    ensures Erase(child) == Merge(Erase(r.children[key]), Erase(s.children[key]))
    ensures Nodes(child) <= Nodes(r.children[key]) + Nodes(s.children[key])
    decreases s, 0
  {
    NodesAllocated(s);
    NodesAllocated(r);
    BelowIn(s, key);
    BesideApart(r, key);
    BelowIn(r, key);
    HoldsSplit(r, key);
    child := DeepMerge(dstMap, srcMap, r.children[key], s.children[key]);
    assert Cells(r)[key := ValueOf(child)] == Cells(r);
    HoldsWith(r, key, child);
  }

  /** `dst` lacks `key`, or one of the two values is not a table: the value of `src` is
      stored as it is. */
  method PutEntry(dst: ConfigMap, key: string, srcVal: Value, ghost r: Shape, ghost s: Shape)
    requires r.Owned? && r.node == dst && Holds(r) && Distinct(r)
    requires s.Owned? && Holds(s) && key in s.children && srcVal == ValueOf(s.children[key])
    requires dst !in Nodes(s)
    modifies dst
    ensures Holds(r.(children := r.children[key := s.children[key]])) && Holds(s)
  {
    BelowIn(s, key);
    BesideApart(r, key);
    HoldsSplit(r, key);
    dst.entries := dst.entries[key := srcVal];
    HoldsWith(r, key, s.children[key]);
  }

  /** One iteration: key `key` of `src` goes into `dst`. */
  method MergeKey(dst: ConfigMap, src: ConfigMap, key: string, ghost r: Shape, ghost s: Shape)
    returns (ghost child: Shape)
    requires r.Owned? && r.node == dst && Holds(r) && Distinct(r)
    requires s.Owned? && s.node == src && Holds(s) && Distinct(s) && key in s.children
    requires dst !in Nodes(s) && Below(r, key) !! Nodes(s)
    modifies {dst} + Below(r, key)
    ensures Holds(r.(children := r.children[key := child])) && Holds(s)
    ensures Erase(child) == if key in r.children then Merge(Erase(r.children[key]), Erase(s.children[key]))
                            else Erase(s.children[key])
    ensures Nodes(child) <= Below(r, key) + Below(s, key) && Distinct(child)
    decreases s, 1
  {
    var srcVal := src.entries[key];
    BelowIn(r, key);
    if key in dst.entries && srcVal.Table? && dst.entries[key].Table? {
      child := MergeTables(dst.entries[key].node, srcVal.node, key, r, s);
    } else {
      child := s.children[key];
      PutEntry(dst, key, srcVal, r, s);
    }
  }

  /** The keys still to do: `dst` is as it was there, and `src` is not linked in yet. */
  ghost predicate Untouched(d: Shape, r: Shape, s: Shape, todo: set<string>)
    requires d.Owned? && r.Owned? && s.Owned?
  {
    forall k :: k in todo ==> && Below(r, k) == Below(d, k)
                              && (k in r.children <==> k in d.children)
                              && (k in d.children ==> r.children[k] == d.children[k])
                              && Below(s, k) !! Nodes(r)
  }

  lemma SourceApart(d: Shape, s: Shape)
    requires d.Owned? && s.Owned? && Nodes(d) !! Nodes(s)
    ensures Untouched(d, d, s, s.children.Keys)
  {
    forall k | k in s.children ensures Below(s, k) !! Nodes(d) {
      BelowIn(s, k);
    }
  }

  lemma StillApart(r: Shape, s: Shape, key: string, child: Shape, k: string)
    requires r.Owned? && s.Owned? && Distinct(s) && k != key && Below(s, k) !! Nodes(r)
    requires Nodes(child) <= Below(r, key) + Below(s, key)
    ensures Below(s, k) !! Nodes(r.(children := r.children[key := child]))
  {
    NodesWith(r, key, child);
    BelowIn(r, key);
    SiblingsApart(s, k, key);
  }

  lemma NextKeys(d: Shape, r: Shape, s: Shape, key: string, child: Shape, todo: set<string>)
    requires d.Owned? && r.Owned? && s.Owned? && Distinct(s)
    requires Untouched(d, r, s, todo) && key in s.children
    requires Nodes(child) <= Below(r, key) + Below(s, key)
    ensures Untouched(d, r.(children := r.children[key := child]), s, todo - {key})
  {
    forall k | k in todo - {key} ensures Below(s, k) !! Nodes(r.(children := r.children[key := child])) {
      StillApart(r, s, key, child, k);
    }
  }

  /** Merges `src` into `dst` in place. Only the maps `dst` owned before the call are
      written; tables that `dst` lacks are linked in, not copied, so the result shares
      objects with `src`. */
  method DeepMerge(dst: ConfigMap, src: ConfigMap, ghost d: Shape, ghost s: Shape) returns (ghost r: Shape)
    requires d.Owned? && d.node == dst && Holds(d) && Distinct(d)
    requires s.Owned? && s.node == src && Holds(s) && Distinct(s)
    requires Nodes(d) !! Nodes(s)
    modifies Nodes(d)
    ensures r.Owned? && r.node == dst && Holds(r) && Distinct(r)
    ensures Erase(r) == Merge(Erase(d), Erase(s))
    ensures Nodes(r) <= Nodes(d) + Nodes(s)
    ensures Holds(s)
    decreases s
  {
    var todo := src.entries.Keys;
    r := d;
    MergeButEnds(Erase(d), Erase(s));
    assert todo == Erase(s).children.Keys;
    SourceApart(d, s);
    while todo != {}
      invariant todo <= s.children.Keys
      invariant r.Owned? && r.node == dst && Holds(r) && Distinct(r) && Holds(s)
      invariant Nodes(r) <= Nodes(d) + Nodes(s)
      invariant Untouched(d, r, s, todo)
      invariant Erase(r) == Dir(MergeBut(todo, Erase(d), Erase(s)))
      decreases todo
    {
      var key :| key in todo;
      BelowIn(d, key);
      BelowIn(r, key);
      ghost var child := MergeKey(dst, src, key, r, s);
      NodesWith(r, key, child);
      DistinctWith(r, key, child);
      MergeButStep(todo, d, r, s, key, child);
      NextKeys(d, r, s, key, child, todo);
      r := r.(children := r.children[key := child]);
      todo := todo - {key};
    }
  }

  /** The outcome of reading and decoding one file: the table it decodes to, built of
      newly made maps, or the error that ends the whole read. */
  datatype Decoded = Read(root: ConfigMap) | Failed(error: string)

  ghost function AllNodes(shapes: seq<Shape>): set<ConfigMap>
  {
    set i, n | 0 <= i < |shapes| && n in Nodes(shapes[i]) :: n
  }

  /** No two of the trees share a map object. */
  ghost predicate Separate(shapes: seq<Shape>)
  {
    forall i, j :: 0 <= i < j < |shapes| ==> Nodes(shapes[i]) !! Nodes(shapes[j])
  }

  ghost predicate Decodes(files: seq<Decoded>, shapes: seq<Shape>)
    requires |files| == |shapes|
    reads AllNodes(shapes)
  {
    forall i :: 0 <= i < |files| && files[i].Read? ==>
      && shapes[i].Owned? && shapes[i].node == files[i].root
      && Distinct(shapes[i]) && Holds(shapes[i])
  }

  lemma DecodesLater(files: seq<Decoded>, shapes: seq<Shape>)
    requires |files| == |shapes| > 0 && Decodes(files, shapes)
    ensures Decodes(files[1..], shapes[1..])
  {
  }

  ghost function Trees(shapes: seq<Shape>): (r: seq<Tree>)
    ensures |r| == |shapes|
  {
    seq(|shapes|, i requires 0 <= i < |shapes| => Erase(shapes[i]))
  }

  lemma SplitNodes(shapes: seq<Shape>, i: nat)
    requires i < |shapes| && Separate(shapes)
    ensures AllNodes(shapes[..i]) + Nodes(shapes[i]) <= AllNodes(shapes[..i + 1])
    ensures AllNodes(shapes[..i + 1]) !! AllNodes(shapes[i + 1..])
    ensures AllNodes(shapes[..i]) !! Nodes(shapes[i])
    ensures AllNodes(shapes[..i + 1]) <= AllNodes(shapes) && AllNodes(shapes[i + 1..]) <= AllNodes(shapes)
  {
    assert forall j :: 0 <= j < i ==> shapes[..i + 1][j] == shapes[..i][j];
    assert shapes[..i + 1][i] == shapes[i];
  }

  lemma SomeAllocated(shapes: seq<Shape>)
    ensures forall n :: n in AllNodes(shapes) ==> allocated(n)
  {
    forall i | 0 <= i < |shapes| ensures forall n :: n in Nodes(shapes[i]) ==> allocated(n) {
      NodesAllocated(shapes[i]);
    }
  }

  /** The first `i` files are merged into the accumulator, which shares no map with the rest. */
  ghost predicate MergedSoFar(root: ConfigMap, r: Shape, files: seq<Decoded>, shapes: seq<Shape>, i: nat)
    requires |files| == |shapes| && i <= |files|
    reads Nodes(r), AllNodes(shapes[i..])
  {
    && r.Owned? && r.node == root && Holds(r) && Distinct(r)
    && Nodes(r) <= {root} + AllNodes(shapes[..i])
    && Erase(r) == MergeAll(Trees(shapes[..i]))
    && Decodes(files[i..], shapes[i..])
  }

  lemma TreesNext(shapes: seq<Shape>, i: nat)
    requires i < |shapes|
    ensures MergeAll(Trees(shapes[..i + 1])) == Merge(MergeAll(Trees(shapes[..i])), Erase(shapes[i]))
  {
    var trees := Trees(shapes[..i + 1]);
    assert trees[..i] == Trees(shapes[..i]) && trees[i] == Erase(shapes[i]);
  }

  /** The files from `i` on, with the first of them taken off. */
  lemma FilesFrom(files: seq<Decoded>, shapes: seq<Shape>, i: nat)
    requires |files| == |shapes| && i < |files| && Decodes(files[i..], shapes[i..])
    ensures files[i].Read? ==> shapes[i].Owned? && shapes[i].node == files[i].root && Distinct(shapes[i]) && Holds(shapes[i])
    ensures Decodes(files[i + 1..], shapes[i + 1..])
  {
    assert files[i..][0] == files[i] && shapes[i..][0] == shapes[i];
    assert files[i..][1..] == files[i + 1..] && shapes[i..][1..] == shapes[i + 1..];
    DecodesLater(files[i..], shapes[i..]);
  }

  /** One turn of the loop over the files. */
  method MergeFile(root: ConfigMap, files: seq<Decoded>, i: nat, ghost r: Shape, ghost shapes: seq<Shape>)
    returns (ghost r': Shape)
    requires |files| == |shapes| && i < |files| && files[i].Read? && Separate(shapes) && root !in AllNodes(shapes)
    requires MergedSoFar(root, r, files, shapes, i)
    modifies Nodes(r)
    ensures MergedSoFar(root, r', files, shapes, i + 1)
  {
    SplitNodes(shapes, i);
    SomeAllocated(shapes[i + 1..]);
    FilesFrom(files, shapes, i);
    TreesNext(shapes, i);
    r' := DeepMerge(root, files[i].root, r, shapes[i]);
  }

  /** The loop over the files, into an accumulator that no file owns. */
  method FoldFiles(root: ConfigMap, files: seq<Decoded>, ghost start: Shape, ghost shapes: seq<Shape>)
    returns (raw: Decoded, ghost r: Shape)
    requires |files| == |shapes| && Separate(shapes) && root !in AllNodes(shapes)
    requires MergedSoFar(root, start, files, shapes, 0)
    modifies {root} + AllNodes(shapes)
    ensures FirstFailure(files, root, raw)
    ensures raw.Read? ==> MergedSoFar(root, r, files, shapes, |files|)
  {
    r := start;
    SomeAllocated(shapes);
    for i := 0 to |files|
      invariant forall j :: 0 <= j < i ==> files[j].Read?
      invariant MergedSoFar(root, r, files, shapes, i)
    {
      if files[i].Failed? {
        return files[i], r;
      }
      PrefixNodes(shapes, i);
      r := MergeFile(root, files, i, r, shapes);
    }
    raw := Read(root);
  }

  /** The read ends with the first file that fails, or with the accumulator if none does. */
  ghost predicate FirstFailure(files: seq<Decoded>, root: ConfigMap, raw: Decoded)
  {
    if raw.Read? then raw == Read(root) && forall i :: 0 <= i < |files| ==> files[i].Read?
    else exists i :: 0 <= i < |files| && raw == files[i] && forall j :: 0 <= j < i ==> files[j].Read?
  }

  lemma PrefixNodes(shapes: seq<Shape>, i: nat)
    requires i <= |shapes|
    ensures AllNodes(shapes[..i]) <= AllNodes(shapes)
  {
  }

  /** Merges every file into one accumulator, in order. The accumulator picks up maps of
      earlier files and goes on writing into them, yet it never shares one with a file
      still to come. */
  method MergeFiles(files: seq<Decoded>, ghost shapes: seq<Shape>) returns (raw: Decoded, ghost r: Shape)
    requires |files| == |shapes| && Decodes(files, shapes) && Separate(shapes)
    modifies AllNodes(shapes)
    ensures raw.Read? <==> forall i :: 0 <= i < |files| ==> files[i].Read?
    ensures raw.Read? ==> r.Owned? && r.node == raw.root && Holds(r) && Distinct(r)
    ensures raw.Read? ==> Erase(r) == MergeAll(Trees(shapes))
    ensures raw.Failed? ==> exists i :: 0 <= i < |files| && raw == files[i] && forall j :: 0 <= j < i ==> files[j].Read?
  {
    SomeAllocated(shapes);
    var root := new ConfigMap();
    assert files[0..] == files && shapes[0..] == shapes && shapes[..0] == [];
    raw, r := FoldFiles(root, files, Owned(root, map[]), shapes);
    assert shapes[..|files|] == shapes;
  }
}
