/** The GDTF geometry tree of a fixture profile (instance -> parent instance, "" = none), the two
    bounded climbs the parameter model makes through it, and what those climbs mean on the paths
    light takes: from an emitter's geometry up to the top of the fixture. */
module GeometryTree {

  type Tree = map<string, string>

  /** Both climbs give up after this many geometries. */
  const CLIMB_LIMIT: nat := 256

  /** Some geometry among cur and the ones above it, looking at no more than n of them, is in
      holders. The empty instance and an instance without a parent entry end the climb. */
  ghost predicate HitsWithin(tree: Tree, cur: string, holders: set<string>, n: nat)
    decreases n
  {
    n > 0 && cur != "" &&
    (cur in holders || (cur in tree && HitsWithin(tree, tree[cur], holders, n - 1)))
  }

  /** inst, or a geometry above it, holds one. */
  ghost predicate AtOrUnder(tree: Tree, inst: string, holders: set<string>)
  {
    HitsWithin(tree, inst, holders, CLIMB_LIMIT)
  }

  /** A geometry strictly above inst holds one. */
  ghost predicate StrictlyUnder(tree: Tree, inst: string, holders: set<string>)
  {
    inst in tree && HitsWithin(tree, tree[inst], holders, CLIMB_LIMIT)
  }

  /** The climb of the software master: inst itself counts. */
  method ClimbFrom(tree: Tree, inst: string, holders: set<string>) returns (hit: bool)
    ensures hit <==> AtOrUnder(tree, inst, holders)
  {
    var cur, n := inst, 0;
    while n < CLIMB_LIMIT && cur != ""
      invariant n <= CLIMB_LIMIT
      invariant AtOrUnder(tree, inst, holders) <==> HitsWithin(tree, cur, holders, CLIMB_LIMIT - n)
    {
      if cur in holders {
        return true;
      }
      if cur !in tree {
        return false;
      }
      cur, n := tree[cur], n + 1;
    }
    return false;
  }

  /** The climb of the inner-dimmer rule: it starts at the parent, so inst itself never counts. */
  method ClimbAbove(tree: Tree, inst: string, holders: set<string>) returns (hit: bool)
    ensures hit <==> StrictlyUnder(tree, inst, holders)
  {
    if inst !in tree {
      return false;
    }
    var cur, ok, n := tree[inst], true, 0;
    while ok && n < CLIMB_LIMIT && cur != ""
      invariant n <= CLIMB_LIMIT
      invariant StrictlyUnder(tree, inst, holders) <==> (ok && HitsWithin(tree, cur, holders, CLIMB_LIMIT - n))
    {
      if cur in holders {
        return true;
      }
      ok := cur in tree;
      if ok {
        cur := tree[cur];
      }
      n := n + 1;
    }
    return false;
  }

  // ---------------------------------------------------------------- paths

  /** p runs from a geometry up to the top of the fixture, parent by parent. Light emitted at p[0]
      passes under every dimmer whose geometry is on p. */
  ghost predicate IsPath(tree: Tree, p: seq<string>)
    decreases |p|
  {
    |p| > 0 && p[0] != "" &&
    if |p| == 1 then p[0] !in tree || tree[p[0]] == ""
    else p[0] in tree && tree[p[0]] == p[1] && IsPath(tree, p[1..])
  }

  lemma {:induction false} PathSuffix(tree: Tree, p: seq<string>, i: nat)
    requires IsPath(tree, p) && i < |p|
    ensures IsPath(tree, p[i..])
  {
    if i == 0 {
      assert p[0..] == p;
    } else {
      PathSuffix(tree, p[1..], i - 1);
      assert p[1..][i - 1..] == p[i..];
    }
  }

  lemma {:induction false} PathNonEmpty(tree: Tree, p: seq<string>)
    requires IsPath(tree, p)
    ensures forall k :: 0 <= k < |p| ==> p[k] != ""
    decreases |p|
  {
    if |p| > 1 {
      PathNonEmpty(tree, p[1..]);
      assert forall k :: 0 < k < |p| ==> p[k] == p[1..][k - 1];
    }
  }

  /** On a path no longer than the limit a climb sees exactly the geometries of the path. */
  lemma {:induction false} HitsOnPath(tree: Tree, p: seq<string>, holders: set<string>, n: nat)
    requires IsPath(tree, p) && |p| <= n
    ensures HitsWithin(tree, p[0], holders, n) <==> exists k :: 0 <= k < |p| && p[k] in holders
    decreases |p|
  {
    if |p| == 1 {
      if p[0] in tree {
        assert !HitsWithin(tree, tree[p[0]], holders, n - 1);
      }
    } else {
      HitsOnPath(tree, p[1..], holders, n - 1);
      assert HitsWithin(tree, p[0], holders, n) <==> p[0] in holders || HitsWithin(tree, p[1..][0], holders, n - 1);
      if exists k :: 0 <= k < |p| && p[k] in holders {
        var k :| 0 <= k < |p| && p[k] in holders;
        if k > 0 {
          assert p[1..][k - 1] in holders;
        }
      }
      if HitsWithin(tree, p[1..][0], holders, n - 1) {
        var k :| 0 <= k < |p[1..]| && p[1..][k] in holders;
        assert p[k + 1] in holders;
      }
    }
  }

  /** Within the limit the two climbs agree with the tree: AtOrUnder looks at the whole path, and
      StrictlyUnder at everything above its first geometry. */
  lemma ClimbsSeePath(tree: Tree, p: seq<string>, holders: set<string>)
    requires IsPath(tree, p) && |p| <= CLIMB_LIMIT
    ensures AtOrUnder(tree, p[0], holders) <==> exists k :: 0 <= k < |p| && p[k] in holders
    ensures StrictlyUnder(tree, p[0], holders) <==> exists k :: 0 < k < |p| && p[k] in holders
  {
    HitsOnPath(tree, p, holders, CLIMB_LIMIT);
    if |p| > 1 {
      HitsOnPath(tree, p[1..], holders, CLIMB_LIMIT);
      if exists k :: 0 < k < |p| && p[k] in holders {
        var k :| 0 < k < |p| && p[k] in holders;
        assert p[1..][k - 1] in holders;
      }
      if StrictlyUnder(tree, p[0], holders) {
        var k :| 0 <= k < |p[1..]| && p[1..][k] in holders;
        assert p[k + 1] in holders;
      }
    }
  }

  /** The holders on a path have exactly one that is not strictly under another: the last. */
  lemma OutermostOnPath(tree: Tree, p: seq<string>, holders: set<string>) returns (top: nat)
    requires IsPath(tree, p) && |p| <= CLIMB_LIMIT
    requires exists k :: 0 <= k < |p| && p[k] in holders
    ensures top < |p| && p[top] in holders && !StrictlyUnder(tree, p[top], holders)
    ensures forall k :: 0 <= k < |p| && k != top && p[k] in holders ==> k < top && StrictlyUnder(tree, p[k], holders)
  {
    var k0 :| 0 <= k0 < |p| && p[k0] in holders;
    top := k0;
    var i := k0 + 1;
    while i < |p|
      invariant k0 < i <= |p| && top < i
      invariant p[top] in holders
      invariant forall k :: top < k < i ==> p[k] !in holders
    {
      if p[i] in holders {
        top := i;
      }
      i := i + 1;
    }
    forall k | 0 <= k < |p| && p[k] in holders
      ensures StrictlyUnder(tree, p[k], holders) <==> k < top
    {
      PathSuffix(tree, p, k);
      ClimbsSeePath(tree, p[k..], holders);
      if k < top {
        assert p[k..][top - k] in holders;
      } else {
        assert forall j :: 0 < j < |p[k..]| ==> p[k..][j] == p[k + j];
      }
    }
  }
}
