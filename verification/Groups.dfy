/** Queries by group over the tree of hosts (src/wigo/global.go and src/wigo/host.go). */
module Groups {
  import opened Basics
  import opened Forest

  datatype HostSummary = HostSummary(name: string, message: string, status: int, isAlive: bool, probes: map<string, int>)

  /** The summary of a host: its own name, its host-wide message, status and liveness, and its probes. */
  ghost predicate IsSummary(h: HostSummary, n: Wigo) {
    && h.name == n.hostname && h.message == n.globalMessage && h.status == n.globalStatus
    && h.isAlive == n.isAlive && h.probes == n.host.probes
  }

  /** The host at `path` belongs to `group`. */
  ghost predicate Member(w: Wigo, group: string, path: Path) {
    NodeAt(w, path).Some? && NodeAt(w, path).value.host.group == group
  }

  lemma MemberBelow(w: Wigo, group: string, k: string, path: Path)
    requires k in w.remotes
    ensures Member(w, group, [k] + path) <==> Member(w.remotes[k], group, path)
  {
    assert ([k] + path)[1..] == path;
  }

  /** A group is listed by the wigo `localUuid`: a non-empty group of a strict descendant, or its own. */
  ghost predicate Listed(w: Wigo, localUuid: string, group: string) {
    && group != ""
    && ((w.uuid == localUuid && w.host.group == group) || ListedBelow(w, w.remotes.Keys, group))
  }

  ghost predicate ListedBelow(w: Wigo, keys: set<string>, group: string) {
    exists path :: path != [] && path[0] in keys && Member(w, group, path)
  }

  lemma ListedBelowStep(w: Wigo, keys: set<string>, k: string, localUuid: string, group: string)
    requires keys <= w.remotes.Keys && k in w.remotes && group != ""
    ensures ListedBelow(w, keys + {k}, group) <==>
            || ListedBelow(w, keys, group)
            || w.remotes[k].host.group == group
            || Listed(w.remotes[k], localUuid, group)
  {
    var child := w.remotes[k];
    MemberBelow(w, group, k, []);
    if path :| path != [] && path[0] == k && Member(w, group, path) {
      assert path == [k] + path[1..];
      MemberBelow(w, group, k, path[1..]);
    }
    if path :| path != [] && Member(child, group, path) {
      MemberBelow(w, group, k, path);
      assert ([k] + path)[0] == k;
    }
    if child.host.group == group {
      assert Member(w, group, [k]) by { assert [k] + [] == [k]; }
      assert [k][0] == k;
    }
  }

  method IsStringInArray(str: string, l: seq<string>) returns (found: bool)
    ensures found <==> str in l
  {
    for i := 0 to |l|
      invariant str !in l[..i]
    {
      if l[i] == str {
        return true;
      }
    }
    return false;
  }

  method ListGroupsNames(w: Wigo, localUuid: string) returns (list: seq<string>)
    ensures NoDuplicates(list)
    ensures forall g :: g in list <==> Listed(w, localUuid, g)
    decreases w
  {
    list := [];
    if w.uuid == localUuid && w.host.group != "" {
      list := list + [w.host.group];
    }
    var todo := w.remotes.Keys;
    while todo != {}
      invariant todo <= w.remotes.Keys
      invariant NoDuplicates(list)
      invariant forall g :: g in list <==>
                  g != "" && ((w.uuid == localUuid && w.host.group == g) || ListedBelow(w, w.remotes.Keys - todo, g))
      decreases todo
    {
      var key :| key in todo;
      var wigo := w.remotes[key];
      ghost var before := list;
      var group := wigo.host.group;
      var known := IsStringInArray(group, list);
      if !known && group != "" {
        list := list + [group];
      }
      var remoteList := ListGroupsNames(wigo, localUuid);
      list := MergeNames(list, remoteList);
      forall g | g != "" {
        ListedBelowStep(w, w.remotes.Keys - todo, key, localUuid, g);
      }
      assert w.remotes.Keys - todo + {key} == w.remotes.Keys - (todo - {key});
      todo := todo - {key};
    }
  }

  method MergeNames(names: seq<string>, more: seq<string>) returns (list: seq<string>)
    requires NoDuplicates(names)
    ensures NoDuplicates(list)
    ensures forall g :: g in list <==> g in names || g in more
  {
    list := names;
    for i := 0 to |more|
      invariant NoDuplicates(list)
      invariant forall g :: g in list <==> g in names || g in more[..i]
    {
      var known := IsStringInArray(more[i], list);
      if !known {
        list := list + [more[i]];
      }
    }
  }

  // ------------------------------------------------------------------ summaries

  ghost predicate Bounds(status: int, n: Wigo) {
    n.host.status <= status && n.globalStatus <= status
  }

  /** `status` is the maximum of 0 and the host and global statuses of the hosts at `paths`. */
  ghost predicate IsGroupStatus(status: int, w: Wigo, paths: seq<Path>) {
    && status >= 0
    && (forall p :: p in paths && NodeAt(w, p).Some? ==> Bounds(status, NodeAt(w, p).value))
    && (status == 0 || exists p :: p in paths && NodeAt(w, p).Some?
                                   && (NodeAt(w, p).value.host.status == status || NodeAt(w, p).value.globalStatus == status))
  }

  function Prefixed(k: string, paths: seq<Path>): seq<Path> {
    seq(|paths|, i requires 0 <= i < |paths| => [k] + paths[i])
  }

  lemma PrefixedElements(k: string, paths: seq<Path>)
    ensures forall p :: p in Prefixed(k, paths) <==> p != [] && p[0] == k && p[1..] in paths
    ensures NoDuplicates(paths) ==> NoDuplicates(Prefixed(k, paths))
  {
    var all := Prefixed(k, paths);
    forall p | p != [] && p[0] == k && p[1..] in paths
      ensures p in all
    {
      var i :| 0 <= i < |paths| && paths[i] == p[1..];
      assert all[i] == p;
    }
    forall i | 0 <= i < |paths|
      ensures all[i][1..] == paths[i]
    {
    }
  }

  /** `hs` has one entry for each host of the group outside the subtrees in `skipped`, entry i standing for
      the host at paths[i], and `status` is their worst status. */
  ghost predicate Summarises(w: Wigo, group: string, skipped: set<string>,
                             hs: seq<HostSummary>, status: int, paths: seq<Path>) {
    && NoDuplicates(paths)
    && (forall p :: p in paths <==> Member(w, group, p) && (p == [] || p[0] !in skipped))
    && EntriesFor(w, hs, paths)
    && IsGroupStatus(status, w, paths)
  }

  ghost predicate EntriesFor(w: Wigo, hs: seq<HostSummary>, paths: seq<Path>) {
    && |hs| == |paths|
    && forall i :: 0 <= i < |hs| ==> NodeAt(w, paths[i]).Some? && IsSummary(hs[i], NodeAt(w, paths[i]).value)
  }

  method GroupSummary(w: Wigo, groupName: string) returns (hs: seq<HostSummary>, status: int, ghost paths: seq<Path>)
    ensures Summarises(w, groupName, {}, hs, status, paths)
    ensures hs != [] <==> exists p :: Member(w, groupName, p)
    decreases w
  {
    hs, status, paths := [], 0, [];
    if w.host.group == groupName {
      var summary := HostSummary(w.hostname, w.globalMessage, w.globalStatus, w.isAlive, w.host.probes);
      hs, paths := hs + [summary], paths + [[]];
      if w.host.status > status {
        status := w.host.status;
      }
      if w.globalStatus > status {
        status := w.globalStatus;
      }
      assert [] in paths && NodeAt(w, []) == Some(w);
    }
    var todo := w.remotes.Keys;
    while todo != {}
      invariant todo <= w.remotes.Keys
      invariant Summarises(w, groupName, todo, hs, status, paths)
      decreases todo
    {
      var key :| key in todo;
      var subSummaries, subStatus, subPaths := GroupSummary(w.remotes[key], groupName);
      SummariseOneMore(w, groupName, key, todo, hs, status, paths, subSummaries, subStatus, subPaths);
      hs, paths := hs + subSummaries, paths + Prefixed(key, subPaths);
      if subStatus > status {
        status := subStatus;
      }
      todo := todo - {key};
    }
    if p :| Member(w, groupName, p) {
      assert p in paths;
    }
    if hs != [] {
      assert Member(w, groupName, paths[0]) by { assert paths[0] in paths; }
    }
  }

  lemma SummariseOneMore(w: Wigo, group: string, k: string, todo: set<string>,
                         hs: seq<HostSummary>, status: int, paths: seq<Path>,
                         subHs: seq<HostSummary>, subStatus: int, subPaths: seq<Path>)
    requires k in todo && todo <= w.remotes.Keys
    requires Summarises(w, group, todo, hs, status, paths)
    requires Summarises(w.remotes[k], group, {}, subHs, subStatus, subPaths)
    ensures Summarises(w, group, todo - {k}, hs + subHs, if subStatus > status then subStatus else status,
                       paths + Prefixed(k, subPaths))
  {
    var below := Prefixed(k, subPaths);
    PrefixedElements(k, subPaths);
    AppendDisjoint(paths, below);
    StatusOfUnion(status, subStatus, w, k, paths, subPaths);
    EntriesOfUnion(w, k, hs, paths, subHs, subPaths);
    forall p
      ensures p in paths + below <==> Member(w, group, p) && (p == [] || p[0] !in todo - {k})
    {
      if p != [] && p[0] == k {
        MemberBelow(w, group, k, p[1..]);
        assert p == [k] + p[1..];
      }
    }
  }

  lemma EntriesOfUnion(w: Wigo, k: string, hs: seq<HostSummary>, paths: seq<Path>,
                       subHs: seq<HostSummary>, subPaths: seq<Path>)
    requires k in w.remotes && EntriesFor(w, hs, paths) && EntriesFor(w.remotes[k], subHs, subPaths)
    ensures EntriesFor(w, hs + subHs, paths + Prefixed(k, subPaths))
  {
    forall i | 0 <= i < |subHs|
      ensures NodeAt(w, Prefixed(k, subPaths)[i]) == NodeAt(w.remotes[k], subPaths[i])
    {
      assert Prefixed(k, subPaths)[i][1..] == subPaths[i];
    }
  }

  lemma StatusOfUnion(a: int, b: int, w: Wigo, k: string, paths: seq<Path>, below: seq<Path>)
    requires k in w.remotes
    requires IsGroupStatus(a, w, paths) && IsGroupStatus(b, w.remotes[k], below)
    ensures IsGroupStatus(if b > a then b else a, w, paths + Prefixed(k, below))
  {
    var child := w.remotes[k];
    PrefixedElements(k, below);
    if p :| p in below && NodeAt(child, p).Some?
            && (NodeAt(child, p).value.host.status == b || NodeAt(child, p).value.globalStatus == b) {
      assert ([k] + p)[1..] == p;
      assert [k] + p in Prefixed(k, below) && NodeAt(w, [k] + p) == NodeAt(child, p);
    }
  }

  /** At the local root, a non-empty group is listed exactly when some host belongs to it, that is,
      exactly when GroupSummary of it is not empty. */
  lemma ListedIffSummarised(w: Wigo, group: string)
    requires group != ""
    ensures Listed(w, w.uuid, group) <==> exists p :: Member(w, group, p)
  {
    if w.host.group == group {
      assert Member(w, group, []);
    }
    if p :| Member(w, group, p) {
      if p != [] {
        assert p[0] in w.remotes.Keys;
      }
    }
  }
}
