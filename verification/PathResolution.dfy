/** Current path of a link, derived by walking the sole parent link of each directory. */
module PathResolution {
  import opened Core
  import opened Schema

  datatype PathError =
    | LinkNotFound(link: LinkId)
    | MissingParent(key: FileKey)
    | AmbiguousParent(key: FileKey)
    | ParentCycle(key: FileKey)
    | TraversalBoundary(link: LinkId)
    | DepthLimit(limit: nat)

  datatype Resolution = Resolved(components: seq<string>) | Failed(error: PathError)

  /** Names collected from a link upwards, listed from the root downwards. */
  function RootFirst(names: seq<string>): seq<string> {
    seq(|names|, i requires 0 <= i < |names| => names[|names| - 1 - i])
  }

  /** Why an object does not have exactly one link. */
  ghost function NotSole(links: Links, key: FileKey): PathError {
    if LinksOf(links, key) == {} then MissingParent(key) else AmbiguousParent(key)
  }

  ghost predicate HasSoleLink(links: Links, key: FileKey) {
    exists l :: LinksOf(links, key) == {l}
  }

  ghost function SoleLink(links: Links, key: FileKey): (l: LinkId)
    requires HasSoleLink(links, key)
    ensures LinksOf(links, key) == {l} && l in links
  {
    var l :| LinksOf(links, key) == {l};
    assert l in LinksOf(links, key);
    l
  }

  /** The walk from `current`, having already collected `taken` below it. */
  ghost function Walk(
    links: Links, current: LinkId, isTarget: bool, seen: set<FileKey>, taken: seq<string>, limit: nat)
    : Resolution
    requires current in links
    decreases limit - |taken|
  {
    var row := links[current];
    var names := taken + [row.name];
    if |taken| >= limit then Failed(DepthLimit(limit))
    else if row.boundary && !isTarget then Failed(TraversalBoundary(current))
    else if row.parent.None? then Resolved(RootFirst(names))
    else if row.parent.value in seen then Failed(ParentCycle(row.parent.value))
    else if !HasSoleLink(links, row.parent.value) then Failed(NotSole(links, row.parent.value))
    else Walk(links, SoleLink(links, row.parent.value), false, seen + {row.parent.value}, names, limit)
  }

  ghost function Resolve(links: Links, link: LinkId, limit: nat): Resolution {
    if limit == 0 then Failed(DepthLimit(0))
    else if link !in links then Failed(LinkNotFound(link))
    else Walk(links, link, true, {}, [], limit)
  }

  /** The resolver's loop. */
  method ResolvePath(links: Links, link: LinkId, limit: nat) returns (r: Resolution)
    ensures r == Resolve(links, link, limit)
  {
    if limit == 0 {
      return Failed(DepthLimit(0));
    }
    if link !in links {
      return Failed(LinkNotFound(link));
    }
    var current := link;
    var components: seq<string> := [];
    var seen: set<FileKey> := {};
    var isTarget := true;
    while true
      invariant current in links
      invariant Walk(links, current, isTarget, seen, components, limit) == Resolve(links, link, limit)
      decreases limit - |components|
    {
      if |components| >= limit {
        return Failed(DepthLimit(limit));
      }
      var row := links[current];
      if row.boundary && !isTarget {
        return Failed(TraversalBoundary(current));
      }
      components := components + [row.name];
      if row.parent.None? {
        return Resolved(RootFirst(components));
      }
      var parent := row.parent.value;
      if parent in seen {
        return Failed(ParentCycle(parent));
      }
      seen := seen + {parent};
      var owners := set l | l in links && links[l].key == parent;
      assert owners == LinksOf(links, parent);
      if owners == {} {
        return Failed(MissingParent(parent));
      }
      var first :| first in owners;
      if owners != {first} {
        assert !HasSoleLink(links, parent);
        return Failed(AmbiguousParent(parent));
      }
      assert SoleLink(links, parent) == first;
      current := first;
      isTarget := false;
    }
  }

  lemma {:induction false} WalkNeverLosesLink(
    links: Links, current: LinkId, isTarget: bool, seen: set<FileKey>, taken: seq<string>, limit: nat)
    requires current in links
    ensures var r := Walk(links, current, isTarget, seen, taken, limit); r.Failed? ==> !r.error.LinkNotFound?
    decreases limit - |taken|
  {
    var row := links[current];
    if |taken| < limit && row.parent.Some? && HasSoleLink(links, row.parent.value) {
      WalkNeverLosesLink(links, SoleLink(links, row.parent.value), false, seen + {row.parent.value},
                         taken + [row.name], limit);
    }
  }

  // ----- Reference: the chain of sole parent links from a link up to a root.

  ghost predicate Climbs(links: Links, lower: LinkId, upper: LinkId) {
    lower in links && links[lower].parent.Some? && LinksOf(links, links[lower].parent.value) == {upper}
  }

  /** A chain climbs by sole parent links and ends at a provider root. */
  ghost predicate IsChain(links: Links, chain: seq<LinkId>) {
    && |chain| > 0
    && (forall i :: 0 <= i < |chain| ==> chain[i] in links)
    && (forall i :: 0 < i < |chain| ==> Climbs(links, chain[i - 1], chain[i]))
    && links[chain[|chain| - 1]].parent.None?
  }

  /** No link strictly above the target is a provider traversal boundary. */
  ghost predicate BoundaryFree(links: Links, chain: seq<LinkId>)
    requires IsChain(links, chain)
  {
    forall i :: 0 < i < |chain| ==> !links[chain[i]].boundary
  }

  /** Link names from the root end of the chain down to its target. */
  ghost function NamesFromRoot(links: Links, chain: seq<LinkId>): seq<string>
    requires forall i :: 0 <= i < |chain| ==> chain[i] in links
  {
    seq(|chain|, i requires 0 <= i < |chain| => links[chain[|chain| - 1 - i]].name)
  }

  lemma {:induction false} ChainUnique(links: Links, a: seq<LinkId>, b: seq<LinkId>)
    requires IsChain(links, a) && IsChain(links, b) && a[0] == b[0]
    ensures a == b
    decreases |a|
  {
    if |a| == 1 || |b| == 1 {
      assert |a| > 1 ==> Climbs(links, a[0], a[1]);
      assert |b| > 1 ==> Climbs(links, b[0], b[1]);
    } else {
      assert Climbs(links, a[0], a[1]) && Climbs(links, b[0], b[1]);
      assert a[1] in {b[1]};
      ChainTail(links, a);
      ChainTail(links, b);
      ChainUnique(links, a[1..], b[1..]);
      assert a == [a[0]] + a[1..] && b == [b[0]] + b[1..];
    }
  }

  lemma ChainTail(links: Links, chain: seq<LinkId>)
    requires IsChain(links, chain) && |chain| > 1
    ensures IsChain(links, chain[1..])
  {
    var t := chain[1..];
    forall i | 0 < i < |t| ensures Climbs(links, t[i - 1], t[i]) {
      assert Climbs(links, chain[i], chain[i + 1]);
    }
  }

  lemma {:induction false} ChainSuffix(links: Links, chain: seq<LinkId>, k: nat)
    requires IsChain(links, chain) && k < |chain|
    ensures IsChain(links, chain[k..])
  {
    if k > 0 {
      ChainTail(links, chain);
      ChainSuffix(links, chain[1..], k - 1);
      assert chain[1..][k - 1..] == chain[k..];
    } else {
      assert chain[0..] == chain;
    }
  }

  /** A chain that reaches a root never passes through the same parent twice. */
  lemma ChainAcyclic(links: Links, chain: seq<LinkId>, i: nat, j: nat)
    requires IsChain(links, chain) && i < j && j + 1 < |chain|
    ensures links[chain[i]].parent != links[chain[j]].parent
  {
    if links[chain[i]].parent == links[chain[j]].parent {
      assert Climbs(links, chain[i], chain[i + 1]) && Climbs(links, chain[j], chain[j + 1]);
      assert chain[i + 1] in {chain[j + 1]};
      ChainSuffix(links, chain, i + 1);
      ChainSuffix(links, chain, j + 1);
      ChainUnique(links, chain[i + 1..], chain[j + 1..]);
    }
  }

  ghost function NamesOf(links: Links, chain: seq<LinkId>): seq<string>
    requires forall i :: 0 <= i < |chain| ==> chain[i] in links
  {
    seq(|chain|, i requires 0 <= i < |chain| => links[chain[i]].name)
  }

  ghost predicate ParentsBelow(links: Links, chain: seq<LinkId>, k: nat, seen: set<FileKey>)
    requires IsChain(links, chain) && k < |chain|
  {
    forall p :: p in seen ==> exists i :: 0 <= i < k && links[chain[i]].parent == Some(p)
  }

  lemma {:induction false} WalkAlongChain(
    links: Links, chain: seq<LinkId>, k: nat, seen: set<FileKey>, limit: nat)
    requires IsChain(links, chain) && BoundaryFree(links, chain) && k < |chain| <= limit
    requires ParentsBelow(links, chain, k, seen)
    ensures Walk(links, chain[k], k == 0, seen, NamesOf(links, chain[..k]), limit)
            == Resolved(RootFirst(NamesOf(links, chain)))
    decreases |chain| - k
  {
    var row := links[chain[k]];
    var taken := NamesOf(links, chain[..k]);
    assert taken + [row.name] == NamesOf(links, chain[..k + 1]);
    if k == |chain| - 1 {
      assert chain[..k + 1] == chain;
    } else {
      assert Climbs(links, chain[k], chain[k + 1]);
      var parent := row.parent.value;
      if parent in seen {
        var i :| 0 <= i < k && links[chain[i]].parent == Some(parent);
        ChainAcyclic(links, chain, i, k);
        assert false;
      }
      assert SoleLink(links, parent) in {chain[k + 1]};
      assert ParentsBelow(links, chain, k + 1, seen + {parent}) by {
        assert links[chain[k]].parent == Some(parent);
      }
      WalkAlongChain(links, chain, k + 1, seen + {parent}, limit);
    }
  }

  /** A successful walk followed some chain. */
  lemma {:induction false} WalkFindsChain(
    links: Links, current: LinkId, isTarget: bool, seen: set<FileKey>, taken: seq<string>, limit: nat)
    returns (chain: seq<LinkId>)
    requires current in links
    requires Walk(links, current, isTarget, seen, taken, limit).Resolved?
    ensures IsChain(links, chain) && chain[0] == current && BoundaryFree(links, chain)
    ensures isTarget || !links[current].boundary
    ensures |taken| + |chain| <= limit
    decreases limit - |taken|
  {
    var row := links[current];
    if row.parent.None? {
      chain := [current];
    } else {
      var next := SoleLink(links, row.parent.value);
      var rest := WalkFindsChain(
        links, next, false, seen + {row.parent.value}, taken + [row.name], limit);
      chain := [current] + rest;
      assert Climbs(links, current, next);
      forall i | 0 < i < |chain|
        ensures Climbs(links, chain[i - 1], chain[i]) && !links[chain[i]].boundary
      {
        if i > 1 { assert Climbs(links, rest[i - 2], rest[i - 1]); }
      }
    }
  }

  lemma NamesFromChain(links: Links, chain: seq<LinkId>)
    requires forall i :: 0 <= i < |chain| ==> chain[i] in links
    ensures RootFirst(NamesOf(links, chain)) == NamesFromRoot(links, chain)
  {
  }

  ghost predicate Reaches(links: Links, link: LinkId, limit: nat, chain: seq<LinkId>) {
    && IsChain(links, chain) && chain[0] == link
    && BoundaryFree(links, chain) && |chain| <= limit
  }

  /** A boundary-free chain within the limit resolves, to its names from the root down. */
  lemma ResolveComplete(links: Links, link: LinkId, limit: nat, chain: seq<LinkId>)
    requires Reaches(links, link, limit, chain)
    ensures Resolve(links, link, limit) == Resolved(NamesFromRoot(links, chain))
  {
    assert chain[..0] == [];
    WalkAlongChain(links, chain, 0, {}, limit);
    NamesFromChain(links, chain);
  }

  /** Resolution succeeds exactly when such a chain exists, on every graph, cyclic or not. */
  lemma ResolveExact(links: Links, link: LinkId, limit: nat)
    ensures Resolve(links, link, limit).Resolved? <==> exists chain :: Reaches(links, link, limit, chain)
    ensures forall chain :: Reaches(links, link, limit, chain) ==>
      Resolve(links, link, limit) == Resolved(NamesFromRoot(links, chain))
  {
    if Resolve(links, link, limit).Resolved? {
      var chain := WalkFindsChain(links, link, true, {}, [], limit);
      assert Reaches(links, link, limit, chain);
    }
    forall chain | Reaches(links, link, limit, chain)
      ensures Resolve(links, link, limit) == Resolved(NamesFromRoot(links, chain))
    {
      ResolveComplete(links, link, limit, chain);
    }
  }

  lemma {:induction false} WalkFailureKeeps(
    links: Links, current: LinkId, isTarget: bool, seen: set<FileKey>, taken: seq<string>,
    limit: nat, larger: nat)
    requires current in links && limit <= larger
    requires Walk(links, current, isTarget, seen, taken, limit).Failed?
    requires !Walk(links, current, isTarget, seen, taken, limit).error.DepthLimit?
    ensures Walk(links, current, isTarget, seen, taken, larger)
            == Walk(links, current, isTarget, seen, taken, limit)
    decreases limit - |taken|
  {
    var row := links[current];
    if row.parent.Some? && !(row.boundary && !isTarget) && row.parent.value !in seen
       && HasSoleLink(links, row.parent.value) {
      WalkFailureKeeps(links, SoleLink(links, row.parent.value), false, seen + {row.parent.value},
                       taken + [row.name], limit, larger);
    }
  }

  /** A missing, ambiguous, cyclic or boundary report is final: no depth limit would help. */
  lemma FailureIsDefinitive(links: Links, link: LinkId, limit: nat, larger: nat)
    requires Resolve(links, link, limit).Failed?
    requires !Resolve(links, link, limit).error.DepthLimit?
    ensures !exists chain :: Reaches(links, link, larger, chain)
  {
    var m := if limit < larger then larger else limit;
    if link in links {
      WalkFailureKeeps(links, link, true, {}, [], limit, m);
    }
    forall chain | Reaches(links, link, larger, chain) ensures false {
      assert Reaches(links, link, m, chain);
      ResolveComplete(links, link, m, chain);
    }
  }
}
