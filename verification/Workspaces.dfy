/** Discovery of kcp workspaces and their URLs, from pkg/kcp/workspace.go. Listing a workspace
    gives the names of its children, or fails; the hierarchy does not change meanwhile. */
module Workspaces {
  import opened Options
  import opened Strings

  type Lister = string -> Option<seq<string>>

  function ChildPath(parent: string, name: string): string
  {
    parent + ":" + name
  }

  ghost predicate IsChild(list: Lister, parent: string, child: string)
  {
    list(parent).Some? && exists n :: n in list(parent).value && n != "" && child == ChildPath(parent, n)
  }

  // Reachability through workspaces whose listing succeeds.

  ghost predicate Chain(list: Lister, ws: seq<string>)
  {
    ws != [] && forall i :: 0 <= i < |ws| - 1 ==> IsChild(list, ws[i], ws[i + 1])
  }

  ghost predicate ChainTo(list: Lister, ws: seq<string>, from: string, to: string)
  {
    Chain(list, ws) && ws[0] == from && ws[|ws| - 1] == to
  }

  ghost predicate Reachable(list: Lister, from: string, to: string)
  {
    exists ws :: ChainTo(list, ws, from, to)
  }

  lemma ReachableSelf(list: Lister, w: string)
    ensures Reachable(list, w, w)
  {
    assert ChainTo(list, [w], w, w);
  }

  lemma ReachableFromChild(list: Lister, parent: string, child: string, to: string)
    requires IsChild(list, parent, child) && Reachable(list, child, to)
    ensures Reachable(list, parent, to)
  {
    var ws :| ChainTo(list, ws, child, to);
    var longer := [parent] + ws;
    forall i | 0 <= i < |longer| - 1 ensures IsChild(list, longer[i], longer[i + 1]) {
      if i > 0 {
        assert longer[i] == ws[i - 1] && longer[i + 1] == ws[i];
      }
    }
    assert ChainTo(list, longer, parent, to);
  }

  ghost predicate Closed(list: Lister, w: string, found: set<string>)
  {
    forall c :: IsChild(list, w, c) ==> c in found
  }

  lemma {:induction false} ChainStaysInside(list: Lister, ws: seq<string>, found: set<string>)
    requires Chain(list, ws) && ws[0] in found && forall w :: w in found ==> Closed(list, w, found)
    ensures ws[|ws| - 1] in found
    decreases ws
  {
    if |ws| > 1 {
      assert IsChild(list, ws[0], ws[1]);
      var rest := ws[1..];
      forall i | 0 <= i < |rest| - 1 ensures IsChild(list, rest[i], rest[i + 1]) {
        assert rest[i] == ws[i + 1] && rest[i + 1] == ws[i + 2];
      }
      ChainStaysInside(list, rest, found);
    }
  }

  /** `universe` holds the children of each of its members. */
  ghost predicate Finite(list: Lister, universe: set<string>)
  {
    forall w :: w in universe ==> Closed(list, w, universe)
  }

  /** What a call on `parent` adds to `before`: all it adds is reachable from the parent, and the
      children of the parent and of all it adds are there. */
  ghost predicate Explored(list: Lister, parent: string, before: set<string>, after: set<string>)
  {
    && before <= after
    && Closed(list, parent, after)
    && forall w :: w in after && w !in before ==> Reachable(list, parent, w) && Closed(list, w, after)
  }

  /** The same when only some of the parent's children have been looked at. */
  ghost predicate Exploring(list: Lister, parent: string, names: seq<string>, before: set<string>, now: set<string>)
  {
    && before <= now
    && (forall n :: n in names && n != "" ==> ChildPath(parent, n) in now)
    && forall w :: w in now && w !in before ==> Reachable(list, parent, w) && Closed(list, w, now)
  }

  lemma ExploredChild(list: Lister, parent: string, names: seq<string>, name: string,
                      before: set<string>, now: set<string>, after: set<string>)
    requires Exploring(list, parent, names, before, now)
    requires name != "" && IsChild(list, parent, ChildPath(parent, name))
    requires Explored(list, ChildPath(parent, name), now + {ChildPath(parent, name)}, after)
    ensures Exploring(list, parent, names + [name], before, after)
  {
    var child := ChildPath(parent, name);
    forall w | w in after && w !in before ensures Reachable(list, parent, w) && Closed(list, w, after) {
      if w !in now {
        ReachableSelf(list, child);
        ReachableFromChild(list, parent, child, w);
      } else {
        assert Closed(list, w, now);
      }
    }
  }

  class Discovery {
    var discovered: set<string>

    constructor (root: string)
      ensures discovered == {root}
    {
      discovered := {root};
    }

    /** Depth first; each workspace is listed once. A listing that fails ends the branch. */
    method DiscoverRecursive(list: Lister, parent: string, ghost universe: set<string>)
      requires Finite(list, universe) && parent in universe && discovered <= universe
      modifies this
      ensures discovered <= universe
      ensures Explored(list, parent, old(discovered), discovered)
      decreases universe - discovered
    {
      var listing := list(parent);
      if listing.None? {
        return;
      }
      var items := listing.value;
      ghost var before := discovered;
      for i := 0 to |items|
        invariant before <= discovered <= universe
        invariant Exploring(list, parent, items[..i], before, discovered)
      {
        assert items[..i + 1] == items[..i] + [items[i]];
        var childName := items[i];
        if childName == "" {
          continue;
        }
        var fullPath := parent + ":" + childName;
        assert fullPath == ChildPath(parent, childName) && childName in items;
        assert Closed(list, parent, universe) && IsChild(list, parent, fullPath);
        if fullPath in discovered {
          continue;
        }
        ghost var now := discovered;
        discovered := discovered + {fullPath};
        DiscoverRecursive(list, fullPath, universe);
        ExploredChild(list, parent, items[..i], childName, before, now, discovered);
      }
      assert items[..|items|] == items;
    }
  }

  ghost predicate NoDuplicates(s: seq<string>)
  {
    forall i, j :: 0 <= i < j < |s| ==> s[i] != s[j]
  }

  /** The workspaces found are the root and all that can be reached from it, each once. */
  method DiscoverAllWorkspaces(list: Lister, root: string, ghost universe: set<string>) returns (workspaces: seq<string>)
    requires Finite(list, universe) && root in universe
    ensures forall w :: w in workspaces <==> Reachable(list, root, w)
    ensures NoDuplicates(workspaces)
  {
    var d := new Discovery(root);
    d.DiscoverRecursive(list, root, universe);
    FoundIsReachable(list, root, d.discovered);
    workspaces := [];
    var todo := d.discovered;
    while todo != {}
      invariant todo <= d.discovered && NoDuplicates(workspaces)
      invariant forall w :: w in workspaces <==> w in d.discovered && w !in todo
      decreases todo
    {
      var ws :| ws in todo;
      workspaces := workspaces + [ws];
      todo := todo - {ws};
    }
  }

  lemma FoundIsReachable(list: Lister, root: string, found: set<string>)
    requires Explored(list, root, {root}, found)
    ensures forall w :: w in found <==> Reachable(list, root, w)
  {
    ReachableSelf(list, root);
    forall w | Reachable(list, root, w) ensures w in found {
      var ws :| ChainTo(list, ws, root, w);
      ChainStaysInside(list, ws, found);
    }
  }

  /** The path of a workspace: the names on the way from the root, each after a colon. */
  ghost function PathOf(root: string, names: seq<string>): string
  {
    if names == [] then root else PathOf(root, names[..|names| - 1]) + ":" + names[|names| - 1]
  }

  /** What is found has a path of names that are not empty, each listed by the workspace before it. */
  lemma {:induction false} ReachableByNames(list: Lister, root: string, ws: seq<string>) returns (names: seq<string>)
    requires Chain(list, ws) && ws[0] == root
    ensures ws[|ws| - 1] == PathOf(root, names) && |names| == |ws| - 1
    ensures forall i :: 0 <= i < |names| ==>
              && names[i] != ""
              && list(PathOf(root, names[..i])).Some? && names[i] in list(PathOf(root, names[..i])).value
    decreases ws
  {
    var k := |ws| - 1;
    if k == 0 {
      names := [];
    } else {
      var before := ReachableByNames(list, root, ws[..k]);
      assert IsChild(list, ws[k - 1], ws[k]);
      var n :| n in list(ws[k - 1]).value && n != "" && ws[k] == ChildPath(ws[k - 1], n);
      names := before + [n];
      assert names[..|names| - 1] == before;
      forall i | 0 <= i < |names|
        ensures names[i] != "" && list(PathOf(root, names[..i])).Some? && names[i] in list(PathOf(root, names[..i])).value
      {
        assert names[..i] == before[..i];
        assert i == |before| ==> before[..i] == before;
      }
    }
  }

  // URLs.

  const CLUSTERS := "/clusters/"

  /** strings.Index: the first position of `sub`, or -1. */
  function Index(s: string, sub: string): (i: int)
    ensures -1 <= i <= |s| && (i >= 0 ==> sub <= s[i..])
    ensures forall j :: 0 <= j <= |s| && (i == -1 || j < i) ==> !(sub <= s[j..])
  {
    if sub <= s then 0
    else if s == "" then -1
    else
      var i := Index(s[1..], sub);
      assert forall j :: 1 <= j <= |s| ==> s[j..] == s[1..][j - 1..];
      if i == -1 then -1 else i + 1
  }

  function ParseServerURL(serverURL: string): (string, string)
  {
    var i := Index(serverURL, CLUSTERS);
    if i == -1 then (serverURL, "")
    else (serverURL[..i], TrimSuffix(serverURL[i + |CLUSTERS|..], "/"))
  }

  function ConstructWorkspaceURL(baseURL: string, workspace: string): string
  {
    baseURL + CLUSTERS + workspace
  }

  lemma AtBase(b: string, w: string)
    ensures ConstructWorkspaceURL(b, w)[..|b|] == b
    ensures ConstructWorkspaceURL(b, w)[|b|..] == CLUSTERS + w
    ensures ConstructWorkspaceURL(b, w)[|b| + |CLUSTERS|..] == w
    ensures CLUSTERS <= ConstructWorkspaceURL(b, w)[|b|..]
  {
  }

  /** Another `/clusters/` can start before the one put in only inside the base, or nine
      characters from its end. */
  lemma EarlierMatch(b: string, w: string, p: nat)
    requires p < |b|
    ensures CLUSTERS <= ConstructWorkspaceURL(b, w)[p..]
            <==> CLUSTERS <= b[p..] || (p == |b| - 9 && b[p..] == "/clusters")
  {
    var url := ConstructWorkspaceURL(b, w);
    var k := |b| - p;
    assert url[p..] == b[p..] + (CLUSTERS + w);
    if k < 9 {
      assert url[p..][k] == '/' && CLUSTERS[k] != '/';
    } else if k == 9 {
      assert CLUSTERS == "/clusters" + "/";
      assert (CLUSTERS + w)[0] == '/';
      if CLUSTERS <= url[p..] {
        assert b[p..] == url[p..][..9] == CLUSTERS[..9];
      }
      if b[p..] == "/clusters" {
        assert url[p..][..10] == CLUSTERS;
      }
    } else if k > 9 {
      assert url[p..][..10] == b[p..][..10];
    }
  }

  ghost predicate UsableBase(b: string)
  {
    Index(b, CLUSTERS) == -1 && !HasSuffix(b, "/clusters")
  }

  /** Taking a workspace URL apart gives back its two parts for exactly the bases that neither
      contain `/clusters/` nor end with `/clusters`, and workspaces that do not end with a slash. */
  lemma URLRoundTripExactly(b: string, w: string)
    ensures ParseServerURL(ConstructWorkspaceURL(b, w)) == (b, w) <==> UsableBase(b) && !HasSuffix(w, "/")
  {
    var url := ConstructWorkspaceURL(b, w);
    AtBase(b, w);
    var i := Index(url, CLUSTERS);
    assert 0 <= i <= |b|;
    if i < |b| {
      EarlierMatch(b, w, i);
      assert |url[..i]| < |b|;
    } else {
      NoEarlierMatch(b, w);
    }
  }

  /** What a URL is taken apart into: without `/clusters/` it is all base, and otherwise it is cut at
      the first one, with a slash at the end left out of the workspace. */
  lemma TakenApartExactly(url: string)
    ensures var (base, workspace) := ParseServerURL(url);
            && ((base == url && workspace == "") <==> forall i :: 0 <= i <= |url| ==> !("/clusters/" <= url[i..]))
            && ((exists i :: 0 <= i <= |url| && "/clusters/" <= url[i..]) ==>
                  && (url == base + "/clusters/" + workspace || url == base + "/clusters/" + workspace + "/")
                  && (HasSuffix(url[|base| + 10..], "/") ==> url == base + "/clusters/" + workspace + "/")
                  && forall i :: 0 <= i < |base| ==> !("/clusters/" <= url[i..]))
  {
    var i := Index(url, CLUSTERS);
    if i != -1 {
      assert CLUSTERS <= url[i..];
      var rest := url[i + |CLUSTERS|..];
      assert url == url[..i] + CLUSTERS + rest;
      if HasSuffix(rest, "/") {
        assert rest == TrimSuffix(rest, "/") + "/";
        assert url == url[..i] + CLUSTERS + TrimSuffix(rest, "/") + "/";
      }
    }
  }

  lemma NoEarlierMatch(b: string, w: string)
    requires Index(ConstructWorkspaceURL(b, w), CLUSTERS) == |b|
    ensures UsableBase(b)
  {
    var j := Index(b, CLUSTERS);
    if j != -1 {
      assert j < |b|;
      EarlierMatch(b, w, j);
    }
    if HasSuffix(b, "/clusters") {
      EarlierMatch(b, w, |b| - 9);
    }
  }
}
