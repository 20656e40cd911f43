/** Kubernetes job names of the ingress pipelines: length, shape and collisions. Characters stand
    for the bytes of a Go string. */
module JobNames {
  import opened Common

  const MAX_NAME: nat := 63

  function FullName(runId: string, node: string): string {
    "i-" + runId + "-" + node
  }

  /** Bytes of the run id that are kept next to this node's suffix. */
  function Kept(node: string): nat {
    if MAX_NAME - 3 - |node| < 1 then 1 else MAX_NAME - 3 - |node|
  }

  /** None is the source's panic: slicing an empty run id. */
  function JobName(runId: string, node: string): Option<string> {
    var id := FullName(runId, node);
    if |id| <= MAX_NAME then Some(id)
    else if Kept(node) > |runId| then None
    else Some("i-" + runId[..Kept(node)] + "-" + node)
  }

  predicate Untruncated(runId: string, node: string) {
    |FullName(runId, node)| <= MAX_NAME
  }

  predicate EndsWith(s: string, tail: string) {
    |tail| <= |s| && s[|s| - |tail|..] == tail
  }

  /** The slice is in range except for an empty run id with a node of 61 bytes or more. The name
      always starts with "i-" and ends in "-node". It is a legal job name, at most 63 bytes, exactly
      when the node has at most 59 bytes, or 60 with an empty run id; it is then cut to exactly 63
      or not at all. */
  lemma NameShape(runId: string, node: string)
    ensures JobName(runId, node).None? <==> runId == "" && |node| >= 61
    ensures JobName(runId, node).Some? ==>
      var name := JobName(runId, node).value;
      && |name| >= 2 && name[..2] == "i-" && EndsWith(name, "-" + node)
      && (|name| <= MAX_NAME <==> |node| <= 59 || (|node| == 60 && runId == ""))
      && (|node| <= 59 && !Untruncated(runId, node) ==> |name| == MAX_NAME)
  {
    if JobName(runId, node).Some? {
      var name := JobName(runId, node).value;
      var tail := "-" + node;
      var head := if Untruncated(runId, node) then "i-" + runId else "i-" + runId[..Kept(node)];
      assert FullName(runId, node) == "i-" + runId + tail;
      assert name == head + tail;
      assert name[|name| - |tail|..] == tail;
    }
  }

  /** No "-a" of one node is a proper suffix of "-b" of another. */
  ghost predicate SuffixFree(nodes: set<string>) {
    forall a, b :: a in nodes && b in nodes && EndsWith("-" + b, "-" + a) ==> a == b
  }

  lemma SuffixesNest(s: string, a: string, b: string)
    requires EndsWith(s, a) && EndsWith(s, b) && |a| <= |b|
    ensures EndsWith(b, a)
  {
    assert b == s[|s| - |b|..];
    assert b[|b| - |a|..] == s[|s| - |a|..];
  }

  /** Over a suffix-free node set a name, truncated or not, gives its node away, whatever the run ids:
      for one run id names are injective, and two runs collide only on the same node. */
  lemma NameDeterminesNode(nodes: set<string>, r1: string, n1: string, r2: string, n2: string)
    requires SuffixFree(nodes) && n1 in nodes && n2 in nodes
    requires JobName(r1, n1).Some? && JobName(r1, n1) == JobName(r2, n2)
    ensures n1 == n2
  {
    NameShape(r1, n1);
    NameShape(r2, n2);
    var name := JobName(r1, n1).value;
    if |n1| <= |n2| {
      SuffixesNest(name, "-" + n1, "-" + n2);
    } else {
      SuffixesNest(name, "-" + n2, "-" + n1);
    }
  }

  lemma PrefixCancels(a: string, b: string, tail: string)
    requires a + tail == b + tail
    ensures a == b
  {
    assert |a| == |b|;
    forall i | 0 <= i < |a| ensures a[i] == b[i] {
      assert (a + tail)[i] == (b + tail)[i];
    }
  }

  lemma SameNodeSameRun(r1: string, r2: string, node: string)
    requires FullName(r1, node) == FullName(r2, node)
    ensures r1 == r2
  {
    assert FullName(r1, node) == "i-" + r1 + ("-" + node) && FullName(r2, node) == "i-" + r2 + ("-" + node);
    PrefixCancels("i-" + r1, "i-" + r2, "-" + node);
    assert r1 == ("i-" + r1)[2..] && r2 == ("i-" + r2)[2..];
  }

  function KeptPart(runId: string, node: string): string
    requires |node| <= 59
  {
    if Untruncated(runId, node) then runId else runId[..60 - |node|]
  }

  lemma NameKeeps(runId: string, node: string)
    requires |node| <= 59
    ensures JobName(runId, node) == Some(FullName(KeptPart(runId, node), node))
  {}

  /** For one node, two runs get the same name exactly when the part of the run id that is kept is the
      same: equal run ids if both names are whole, equal first 60 - |node| bytes if both are cut.
      A cut name and a whole one agree only if the whole run id is the kept part of the other. */
  lemma CollisionsForOneNode(r1: string, r2: string, node: string)
    requires |node| <= 59
    ensures Untruncated(r1, node) && Untruncated(r2, node) ==>
              (JobName(r1, node) == JobName(r2, node) <==> r1 == r2)
    ensures !Untruncated(r1, node) && !Untruncated(r2, node) ==>
              (JobName(r1, node) == JobName(r2, node) <==> r1[..60 - |node|] == r2[..60 - |node|])
    ensures Untruncated(r1, node) && !Untruncated(r2, node) ==>
              (JobName(r1, node) == JobName(r2, node) <==> r1 == r2[..60 - |node|])
  {
    NameKeeps(r1, node);
    NameKeeps(r2, node);
    var k1, k2 := KeptPart(r1, node), KeptPart(r2, node);
    if FullName(k1, node) == FullName(k2, node) {
      SameNodeSameRun(k1, k2, node);
    }
  }

  /** Whole names of a suffix-free node set are injective in run id and node together. */
  lemma WholeNamesAreInjective(nodes: set<string>, r1: string, n1: string, r2: string, n2: string)
    requires SuffixFree(nodes) && n1 in nodes && n2 in nodes
    requires Untruncated(r1, n1) && Untruncated(r2, n2) && JobName(r1, n1) == JobName(r2, n2)
    ensures r1 == r2 && n1 == n2
  {
    NameDeterminesNode(nodes, r1, n1, r2, n2);
    SameNodeSameRun(r1, r2, n1);
  }

  /** Node n2 ends in "-n1", and run r1 is r2 with the rest of n2 moved over. */
  ghost predicate SplitsDifferently(r1: string, n1: string, r2: string, n2: string) {
    exists m: string :: n2 == m + "-" + n1 && r1 == r2 + "-" + m
  }

  lemma SameTextSplits(r1: string, n1: string, r2: string, n2: string) returns (m: string)
    requires r1 + "-" + n1 == r2 + "-" + n2 && |n1| < |n2|
    ensures n2 == m + "-" + n1 && r1 == r2 + "-" + m
  {
    var t := r1 + "-" + n1;
    var d := |n2| - |n1|;
    assert |r1| == |r2| + d;
    assert r2 == t[..|r2|] && r1 == t[..|r1|] && n1 == t[|r1| + 1..];
    assert t[|r1|] == '-' by { assert t == r1 + (['-'] + n1); }
    assert t[|r2|] == '-' && n2 == t[|r2| + 1..] by { assert t == r2 + (['-'] + n2); }
    m := t[|r2| + 1..|r1|];
    assert r1 == t[..|r2|] + [t[|r2|]] + m;
    assert n2 == m + [t[|r1|]] + t[|r1| + 1..];
  }

  lemma SameLengthTails(r1: string, n1: string, r2: string, n2: string)
    requires r1 + "-" + n1 == r2 + "-" + n2 && |n1| == |n2|
    ensures r1 == r2 && n1 == n2
  {
    var t := r1 + "-" + n1;
    assert r1 == t[..|r1|] && n1 == t[|r1| + 1..];
    assert r2 == t[..|r2|] && n2 == t[|r2| + 1..];
  }

  /** Without suffix-freedom whole names are not injective in the pair. They collide exactly when the
      two pairs cut the same text at different hyphens. */
  lemma WholeNamesCollideExactly(r1: string, n1: string, r2: string, n2: string)
    requires Untruncated(r1, n1) && Untruncated(r2, n2) && |n1| <= |n2|
    ensures JobName(r1, n1) == JobName(r2, n2) <==> (r1 == r2 && n1 == n2) || SplitsDifferently(r1, n1, r2, n2)
  {
    if SplitsDifferently(r1, n1, r2, n2) {
      var m :| n2 == m + "-" + n1 && r1 == r2 + "-" + m;
      assert FullName(r1, n1) == FullName(r2, n2);
    }
    if JobName(r1, n1) == JobName(r2, n2) {
      assert r1 + "-" + n1 == FullName(r1, n1)[2..] == FullName(r2, n2)[2..] == r2 + "-" + n2;
      if |n1| < |n2| {
        var m := SameTextSplits(r1, n1, r2, n2);
      } else {
        SameLengthTails(r1, n1, r2, n2);
      }
    }
  }

  /** A node set is suffix-free when what follows a hyphen in a node is always shorter than every
      node. */
  lemma ShortTailsAreSuffixFree(nodes: set<string>, least: nat)
    requires forall n :: n in nodes ==> |n| >= least
    requires forall n, k :: n in nodes && 0 <= k < |n| && n[k] == '-' ==> |n| - k - 1 < least
    ensures SuffixFree(nodes)
  {
    forall a, b | a in nodes && b in nodes && EndsWith("-" + b, "-" + a) ensures a == b {
      var k := |b| - |a|;
      assert ("-" + b)[k..] == "-" + a;
      assert ("-" + b)[k] == ("-" + a)[0] == '-';
      if k == 0 {
        assert b == ("-" + b)[1..] && a == ("-" + a)[1..];
      }
    }
  }

  /** The node names of the two pipelines in cmd/ingress. */
  const FANOUT_NODES: set<string> := {"setup", "b1", "b2", "b3", "collect"}
  const SPECIMEN_NODES: set<string> := {"prepare", "worker-1", "worker-2", "worker-3", "collect"}

  /** Both pipelines are safe: within a run no two nodes ever share a job name. */
  lemma PipelineNodesAreSuffixFree()
    ensures SuffixFree(FANOUT_NODES) && SuffixFree(SPECIMEN_NODES)
  {
    ShortTailsAreSuffixFree(FANOUT_NODES, 2);
    ShortTailsAreSuffixFree(SPECIMEN_NODES, 7);
  }
}
