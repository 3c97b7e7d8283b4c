/** Configuration trees as decoded from TOML, and the pure merge that the in-place
    merge of pkg/config/config.go is proved to compute. */
module ConfigTree {

  import opened Options

  /** A decoded value: a table, or anything that is not a table. */
  datatype Tree = Leaf(value: string) | Dir(children: map<string, Tree>)

  type Path = seq<string>

  /** Later values win; two tables are merged key by key. */
  function Merge(d: Tree, s: Tree): Tree
    decreases s
  {
    if d.Dir? && s.Dir? then
      Dir(map k | k in d.children.Keys + s.children.Keys ::
            if k !in s.children then d.children[k]
            else if k !in d.children then s.children[k]
            else Merge(d.children[k], s.children[k]))
    else s
  }

  /** Folds the merge over files in the given order, starting from an empty table. */
  function MergeAll(files: seq<Tree>): Tree
  {
    if files == [] then Dir(map[]) else Merge(MergeAll(files[..|files| - 1]), files[|files| - 1])
  }

  function Get(t: Tree, p: Path): Option<Tree>
  {
    if p == [] then Some(t)
    else if t.Dir? && p[0] in t.children then Get(t.children[p[0]], p[1..])
    else None
  }

  /** `s` defines the path `p`, or cuts it off with a value that is not a table. */
  ghost predicate Touches(s: Tree, p: Path)
  {
    || Get(s, p).Some?
    || exists i :: 0 <= i < |p| && IsLeafAt(s, p[..i])
  }

  predicate IsLeafAt(t: Tree, p: Path)
  {
    Get(t, p).Some? && Get(t, p).value.Leaf?
  }

  lemma TouchesStep(s: Tree, p: Path)
    requires p != []
    ensures Touches(s, p) <==> s.Leaf? || (p[0] in s.children && Touches(s.children[p[0]], p[1..]))
  {
    if s.Leaf? {
      assert IsLeafAt(s, p[..0]);
    } else if p[0] in s.children {
      var c := s.children[p[0]];
      forall i | 0 < i < |p| ensures IsLeafAt(s, p[..i]) <==> IsLeafAt(c, p[1..][..i - 1]) {
        assert p[..i][1..] == p[1..][..i - 1];
      }
      if Touches(c, p[1..]) && !Get(c, p[1..]).Some? {
        var i :| 0 <= i < |p[1..]| && IsLeafAt(c, p[1..][..i]);
        assert IsLeafAt(s, p[..i + 1]);
      }
    }
  }

  /** Where every leaf of a merged tree comes from: `s` put it there, or `d` did and
      `s` left its path alone. */
  lemma {:induction false} LeafOfMerge(d: Tree, s: Tree, p: Path, v: string)
    ensures Get(Merge(d, s), p) == Some(Leaf(v)) <==>
            (Get(s, p) == Some(Leaf(v)) || (Get(d, p) == Some(Leaf(v)) && !Touches(s, p)))
  {
    if p != [] {
      TouchesStep(s, p);
      if d.Dir? && s.Dir? && p[0] in d.children && p[0] in s.children {
        LeafOfMerge(d.children[p[0]], s.children[p[0]], p[1..], v);
      }
    }
  }

  /** File `i` puts the value at the path, and no later one touches it. */
  ghost predicate Decides(files: seq<Tree>, i: nat, p: Path, v: string)
  {
    i < |files| && Get(files[i], p) == Some(Leaf(v)) && forall j :: i < j < |files| ==> !Touches(files[j], p)
  }

  lemma DecidesMore(files: seq<Tree>, f: Tree, i: nat, p: Path, v: string)
    ensures Decides(files + [f], i, p, v) <==>
              if i == |files| then Get(f, p) == Some(Leaf(v)) else Decides(files, i, p, v) && !Touches(f, p)
  {
    var more := files + [f];
    assert more[|files|] == f && forall j :: 0 <= j < |files| ==> more[j] == files[j];
  }

  /** The last file to define a path, or to cut it off, decides it. */
  lemma {:induction false} LastFileWins(files: seq<Tree>, p: Path, v: string)
    ensures Get(MergeAll(files), p) == Some(Leaf(v)) <==> exists i: nat :: Decides(files, i, p, v)
  {
    if files != [] {
      var n := |files| - 1;
      var rest := files[..n];
      assert files == rest + [files[n]];
      LeafOfMerge(MergeAll(rest), files[n], p, v);
      LastFileWins(rest, p, v);
      forall i: nat ensures Decides(files, i, p, v) <==>
                      if i == n then Get(files[n], p) == Some(Leaf(v)) else Decides(rest, i, p, v) && !Touches(files[n], p)
      {
        DecidesMore(rest, files[n], i, p, v);
      }
      assert !Decides(rest, n, p, v);
      if Get(files[n], p) == Some(Leaf(v)) {
        assert Decides(files, n, p, v);
      }
    }
  }

  /** The tables of a merged tree: a path is a table when `s` makes it one, or `d` does
      and `s` neither overwrites it nor cuts it off. */
  lemma {:induction false} TableOfMerge(d: Tree, s: Tree, p: Path)
    ensures (Get(Merge(d, s), p).Some? && Get(Merge(d, s), p).value.Dir?) <==>
            || (Get(s, p).Some? && Get(s, p).value.Dir?)
            || (Get(d, p).Some? && Get(d, p).value.Dir? && !Touches(s, p))
  {
    if p != [] {
      TouchesStep(s, p);
      if d.Dir? && s.Dir? && p[0] in d.children && p[0] in s.children {
        TableOfMerge(d.children[p[0]], s.children[p[0]], p[1..]);
      }
    }
  }

  lemma {:induction false} MergeIdentity(t: Tree)
    requires t.Dir?
    ensures Merge(Dir(map[]), t) == t && Merge(t, Dir(map[])) == t
  {
  }

  lemma {:induction false} MergeIdempotent(t: Tree)
    ensures Merge(t, t) == t
    decreases t
  {
    if t.Dir? {
      forall k | k in t.children ensures Merge(t.children[k], t.children[k]) == t.children[k] {
        MergeIdempotent(t.children[k]);
      }
    }
  }

  // Associativity. It fails exactly where the middle file cuts a table of the first
  // with a plain value and the last file makes it a table again without naming
  // everything the first one named.

  /** `s` names everything `d` names, table for table. */
  predicate Covers(s: Tree, d: Tree)
    decreases s
  {
    s.Dir? && d.Dir? ==>
      && d.children.Keys <= s.children.Keys
      && forall k :: k in d.children ==> Covers(s.children[k], d.children[k])
  }

  predicate Regroups(a: Tree, b: Tree, c: Tree)
    decreases c
  {
    a.Dir? && c.Dir? ==>
      if b.Leaf? then Covers(c, a)
      else forall k :: k in a.children && k in b.children && k in c.children ==>
             Regroups(a.children[k], b.children[k], c.children[k])
  }

  lemma {:induction false} CoversIsAbsorption(s: Tree, d: Tree)
    ensures Covers(s, d) <==> Merge(d, s) == s
    decreases s
  {
    if s.Dir? && d.Dir? {
      var m := Merge(d, s);
      forall k | k in d.children && k in s.children
        ensures Covers(s.children[k], d.children[k]) <==> m.children[k] == s.children[k]
      {
        CoversIsAbsorption(s.children[k], d.children[k]);
      }
      if Covers(s, d) {
        assert m.children == s.children;
      } else if d.children.Keys <= s.children.Keys {
        var k :| k in d.children && !Covers(s.children[k], d.children[k]);
        assert m.children[k] != s.children[k];
      } else {
        var k :| k in d.children && k !in s.children;
        assert k in m.children;
      }
    }
  }

  lemma {:induction false} MergeAssociative(a: Tree, b: Tree, c: Tree)
    ensures Merge(Merge(a, b), c) == Merge(a, Merge(b, c)) <==> Regroups(a, b, c)
    decreases c
  {
    if a.Dir? && c.Dir? {
      if b.Leaf? {
        CoversIsAbsorption(c, a);
      } else {
        var l, r := Merge(Merge(a, b), c), Merge(a, Merge(b, c));
        assert l.children.Keys == r.children.Keys;
        forall k | k in l.children
          ensures l.children[k] == r.children[k] <==>
                  (k in a.children && k in b.children && k in c.children ==>
                     Regroups(a.children[k], b.children[k], c.children[k]))
        {
          if k in a.children && k in b.children && k in c.children {
            MergeAssociative(a.children[k], b.children[k], c.children[k]);
          }
        }
        if Regroups(a, b, c) {
          assert l.children == r.children;
        } else {
          var k :| k in a.children && k in b.children && k in c.children &&
                   !Regroups(a.children[k], b.children[k], c.children[k]);
          assert l.children[k] != r.children[k];
        }
      }
    }
  }

  /** No path is a table in one of the two and a plain value in the other. */
  ghost predicate SameKinds(a: Tree, b: Tree)
  {
    forall p: Path :: Get(a, p).Some? && Get(b, p).Some? ==> (Get(a, p).value.Dir? <==> Get(b, p).value.Dir?)
  }

  lemma SameKindsDown(a: Tree, b: Tree, k: string)
    requires SameKinds(a, b) && a.Dir? && b.Dir? && k in a.children && k in b.children
    ensures SameKinds(a.children[k], b.children[k])
  {
    forall p: Path
      ensures Get(a.children[k], p) == Get(a, [k] + p) && Get(b.children[k], p) == Get(b, [k] + p)
    {
      assert ([k] + p)[1..] == p;
    }
  }

  lemma {:induction false} SameKindsRegroup(a: Tree, b: Tree, c: Tree)
    requires SameKinds(a, b) && SameKinds(b, c)
    ensures Regroups(a, b, c)
    ensures Merge(Merge(a, b), c) == Merge(a, Merge(b, c))
    decreases c
  {
    assert Get(a, []).Some? && Get(b, []).Some? && Get(c, []).Some?;
    if a.Dir? && c.Dir? && b.Dir? {
      forall k | k in a.children && k in b.children && k in c.children
        ensures Regroups(a.children[k], b.children[k], c.children[k])
      {
        SameKindsDown(a, b, k);
        SameKindsDown(b, c, k);
        SameKindsRegroup(a.children[k], b.children[k], c.children[k]);
      }
    }
    MergeAssociative(a, b, c);
  }
}
