/**
 * The suffix trie over reversed domain labels (common/strmatcher/domain_matcher.go), against the
 * plain suffix test (common/strmatcher/matchers.go).
 */
module DomainMatchers {
  import Bytes

  // ---------------------------------------------------------------------------------------------
  // The reference: domainMatcher
  // ---------------------------------------------------------------------------------------------

  /** domainMatcher.Match: the pattern is the whole domain or a suffix behind a dot. */
  predicate Matches(pattern: string, s: string) {
    && |pattern| <= |s|
    && s[|s| - |pattern|..] == pattern
    && (|s| == |pattern| || s[|s| - |pattern| - 1] == '.')
  }

  /** The patterns and values added, in order. */
  type Added = seq<(string, int)>

  /** The values of the patterns of length len that match, in the order they were added. */
  function ByLength(added: Added, domain: string, len: int): seq<int> {
    if added == [] then []
    else
      var rest := ByLength(added[..|added| - 1], domain, len);
      var (p, v) := added[|added| - 1];
      if |p| == len && Matches(p, domain) then rest + [v] else rest
  }

  /** The values of all matching patterns of length at most len, longest pattern first. */
  function Expected(added: Added, domain: string, len: int): seq<int>
    decreases len + 1
  {
    if len < 0 then [] else ByLength(added, domain, len) + Expected(added, domain, len - 1)
  }

  // ---------------------------------------------------------------------------------------------
  // Labels
  // ---------------------------------------------------------------------------------------------

  /** The last dot before position upTo, or -1. */
  function LastDot(s: string, upTo: int): (d: int)
    requires 0 <= upTo <= |s|
    ensures -1 <= d < upTo
  {
    if upTo == 0 then -1 else if s[upTo - 1] == '.' then upTo - 1 else LastDot(s, upTo - 1)
  }

  lemma {:induction false} LastDotIsADot(s: string, upTo: int)
    requires 0 <= upTo <= |s|
    ensures LastDot(s, upTo) >= 0 ==> s[LastDot(s, upTo)] == '.'
    decreases upTo
  {
    if upTo > 0 && s[upTo - 1] != '.' {
      LastDotIsADot(s, upTo - 1);
    }
  }

  /** There is no dot between the last dot and upTo. */
  lemma {:induction false} NoDotBehind(s: string, upTo: int, i: int)
    requires 0 <= upTo <= |s| && LastDot(s, upTo) < i < upTo
    ensures s[i] != '.'
    decreases upTo
  {
    if i < upTo - 1 {
      NoDotBehind(s, upTo - 1, i);
    }
  }

  /** The labels of a domain from right to left; the empty domain has one empty label. */
  function Labels(s: string): (r: seq<string>)
    ensures r != []
  {
    var d := LastDot(s, |s|);
    if d < 0 then [s] else [s[d + 1..]] + Labels(s[..d])
  }

  function Join(labels: seq<string>): string
    requires labels != []
  {
    if |labels| == 1 then labels[0] else Join(labels[1..]) + "." + labels[0]
  }

  lemma {:induction false} JoinLabels(s: string)
    ensures Join(Labels(s)) == s
    decreases |s|
  {
    var d := LastDot(s, |s|);
    if d >= 0 {
      LastDotIsADot(s, |s|);
      JoinLabels(s[..d]);
      assert Labels(s)[1..] == Labels(s[..d]);
      assert s == s[..d] + "." + s[d + 1..];
    }
  }

  /** Two domains with the same labels are the same. */
  lemma LabelsInjective(s: string, t: string)
    ensures Labels(s) == Labels(t) <==> s == t
  {
    JoinLabels(s);
    JoinLabels(t);
  }

  /** The last dot of x.y is the last dot of y, or the one in between. */
  lemma {:induction false} LastDotConcat(x: string, y: string, s: string, k: int)
    requires s == x + "." + y && 0 <= k <= |y|
    ensures LastDot(s, |x| + 1 + k) == |x| + 1 + LastDot(y, k)
    decreases k
  {
    if k == 0 {
      assert s[|x|] == '.';
    } else {
      assert s[|x| + k] == y[k - 1];
      LastDotConcat(x, y, s, k - 1);
    }
  }

  lemma ConcatSlices(x: string, y: string, e: int)
    requires -1 <= e < |y|
    ensures var s, d := x + "." + y, |x| + 1 + e;
            s[d + 1..] == y[e + 1..] && s[..d] == if e < 0 then x else x + "." + y[..e]
  {
  }

  lemma LabelsStep(s: string, d: int, head: string, tail: string)
    requires d == LastDot(s, |s|) && head == s[d + 1..] && (d >= 0 ==> tail == s[..d])
    ensures Labels(s) == if d < 0 then [head] else [head] + Labels(tail)
  {
    if d < 0 {
      assert head == s;
    }
  }

  lemma PlainLabels(t: string)
    requires LastDot(t, |t|) == -1
    ensures Labels(t) == [t]
  {
  }

  /** The labels of y behind a dot come first. */
  lemma {:induction false} LabelsConcat(x: string, y: string)
    ensures Labels(x + "." + y) == Labels(y) + Labels(x)
    decreases |y|
  {
    var s, e := x + "." + y, LastDot(y, |y|);
    var head, front := y[e + 1..], if e < 0 then [] else y[..e];
    LastDotConcat(x, y, s, |y|);
    ConcatSlices(x, y, e);
    LabelsStep(y, e, head, front);
    if e < 0 {
      LabelsStep(s, |x|, head, x);
    } else {
      LabelsStep(s, |x| + 1 + e, head, x + "." + front);
      LabelsConcat(x, front);
      Bytes.Assoc([head], Labels(front), Labels(x));
    }
  }

  /** A suffix starting behind a dot, or the whole: the candidates for matching patterns. */
  predicate Boundary(s: string, i: int)
    requires 0 <= i <= |s|
  {
    i == 0 || s[i - 1] == '.'
  }

  /** The values added for exactly this pattern. */
  function ValuesOf(added: Added, pattern: string): seq<int> {
    if added == [] then []
    else
      var rest := ValuesOf(added[..|added| - 1], pattern);
      var (p, v) := added[|added| - 1];
      if p == pattern then rest + [v] else rest
  }

  /** The values of the candidate suffixes from position i on, longest first. */
  function FromSuffixes(added: Added, s: string, i: int): seq<int>
    requires 0 <= i
    decreases |s| - i
  {
    if i > |s| then []
    else (if Boundary(s, i) then ValuesOf(added, s[i..]) else []) + FromSuffixes(added, s, i + 1)
  }

  lemma {:induction false} LengthIsSuffix(added: Added, s: string, i: int)
    requires 0 <= i <= |s|
    ensures ByLength(added, s, |s| - i) == if Boundary(s, i) then ValuesOf(added, s[i..]) else []
    decreases |added|
  {
    if added != [] {
      LengthIsSuffix(added[..|added| - 1], s, i);
      var p := added[|added| - 1].0;
      assert |p| == |s| - i ==> (Matches(p, s) <==> p == s[i..] && Boundary(s, i));
    }
  }

  /** Going through the suffixes is going through the lengths. */
  lemma {:induction false} SuffixesAreExpected(added: Added, s: string, i: int)
    requires 0 <= i <= |s| + 1
    ensures FromSuffixes(added, s, i) == Expected(added, s, |s| - i)
    decreases |s| - i + 1
  {
    if i <= |s| {
      LengthIsSuffix(added, s, i);
      SuffixesAreExpected(added, s, i + 1);
    }
  }

  /** Positions that are no candidates contribute nothing. */
  lemma {:induction false} SkipSuffixes(added: Added, s: string, i: int, j: int)
    requires 0 <= i <= j <= |s| + 1
    requires forall k :: i <= k < j && k <= |s| ==> !Boundary(s, k) || ValuesOf(added, s[k..]) == []
    ensures FromSuffixes(added, s, i) == FromSuffixes(added, s, j)
    decreases j - i
  {
    if i < j {
      SkipSuffixes(added, s, i + 1, j);
      assert [] + FromSuffixes(added, s, i + 1) == FromSuffixes(added, s, i + 1);
    }
  }

  // ---------------------------------------------------------------------------------------------
  // The trie: nodes in an arena, a child is the index of a node
  // ---------------------------------------------------------------------------------------------

  datatype Node = Node(values: seq<int>, sub: map<string, nat>)

  type Arena = seq<Node>

  const NEW_NODE := Node([], map[])

  ghost predicate Closed(a: Arena) {
    |a| > 0 && forall i, l :: 0 <= i < |a| && l in a[i].sub ==> a[i].sub[l] < |a|
  }

  /** The node reached from node i along a path of labels, or -1. */
  ghost function Find(a: Arena, i: nat, path: seq<string>): (r: int)
    requires Closed(a) && i < |a|
    ensures -1 <= r < |a|
    decreases |path|
  {
    if path == [] then i
    else if path[0] in a[i].sub then Find(a, a[i].sub[path[0]], path[1..])
    else -1
  }

  /** No node is reached along two paths: the arena is a tree. */
  ghost predicate Tree(a: Arena) {
    Closed(a) && forall p, q :: Find(a, 0, p) >= 0 && Find(a, 0, p) == Find(a, 0, q) ==> p == q
  }

  ghost function ValuesAt(a: Arena, path: seq<string>): seq<int>
    requires Closed(a)
  {
    if Find(a, 0, path) < 0 then [] else a[Find(a, 0, path)].values
  }

  /** The values added for the patterns with these labels. */
  ghost function ValuesFor(added: Added, path: seq<string>): seq<int> {
    if added == [] then []
    else
      var rest := ValuesFor(added[..|added| - 1], path);
      var (p, v) := added[|added| - 1];
      if Labels(p) == path then rest + [v] else rest
  }

  ghost predicate Represents(a: Arena, added: Added) {
    Tree(a) && forall p :: ValuesAt(a, p) == ValuesFor(added, p)
  }

  lemma {:induction false} ValuesForLabels(added: Added, pattern: string)
    ensures ValuesFor(added, Labels(pattern)) == ValuesOf(added, pattern)
  {
    if added != [] {
      ValuesForLabels(added[..|added| - 1], pattern);
      LabelsInjective(added[|added| - 1].0, pattern);
    }
  }

  /** One label further. */
  lemma {:induction false} FindSnoc(a: Arena, i: nat, p: seq<string>, l: string)
    requires Closed(a) && i < |a|
    ensures var j := Find(a, i, p);
            Find(a, i, p + [l]) == if j >= 0 && l in a[j].sub then a[j].sub[l] else -1
    decreases |p|
  {
    var q := p + [l];
    if p == [] {
      assert q[0] == l && q[1..] == [];
    } else {
      assert q[0] == p[0] && q[1..] == p[1..] + [l];
      if p[0] in a[i].sub {
        FindSnoc(a, a[i].sub[p[0]], p[1..], l);
      }
    }
  }

  /** What cannot be found cannot be found further on either. */
  lemma {:induction false} LostForGood(a: Arena, i: nat, p: seq<string>, more: seq<string>)
    requires Closed(a) && i < |a| && Find(a, i, p) < 0
    ensures Find(a, i, p + more) < 0
    decreases |p|
  {
    assert (p + more)[0] == p[0] && (p + more)[1..] == p[1..] + more;
    if p[0] in a[i].sub {
      LostForGood(a, a[i].sub[p[0]], p[1..], more);
    }
  }

  // ---------------------------------------------------------------------------------------------
  // A new child
  // ---------------------------------------------------------------------------------------------

  function WithChild(a: Arena, cur: nat, l: string): Arena
    requires cur < |a|
  {
    a[cur := a[cur].(sub := a[cur].sub[l := |a|])] + [NEW_NODE]
  }

  lemma ChildClosed(a: Arena, cur: nat, l: string)
    requires Closed(a) && cur < |a|
    ensures Closed(WithChild(a, cur, l))
  {
  }

  /** Only the new path leads to the new node. */
  lemma {:induction false} ChildFind(a: Arena, q: seq<string>, l: string, p: seq<string>)
    requires Tree(a) && Find(a, 0, q) >= 0 && Find(a, 0, q + [l]) < 0
    requires Closed(WithChild(a, Find(a, 0, q), l))
    ensures Find(WithChild(a, Find(a, 0, q), l), 0, p) == if p == q + [l] then |a| else Find(a, 0, p)
    decreases |p|
  {
    var cur := Find(a, 0, q);
    var b := WithChild(a, cur, l);
    if p != [] {
      var p0, m := p[..|p| - 1], p[|p| - 1];
      assert p == p0 + [m];
      ChildFind(a, q, l, p0);
      FindSnoc(a, 0, p0, m);
      FindSnoc(b, 0, p0, m);
      FindSnoc(a, 0, q, l);
      assert p == q + [l] <==> p0 == q && m == l;
    }
  }

  lemma ChildRepresents(a: Arena, q: seq<string>, l: string, added: Added)
    requires Represents(a, added) && Find(a, 0, q) >= 0 && Find(a, 0, q + [l]) < 0
    ensures var b := WithChild(a, Find(a, 0, q), l);
            Represents(b, added) && Find(b, 0, q + [l]) == |a|
  {
    var b := WithChild(a, Find(a, 0, q), l);
    ChildClosed(a, Find(a, 0, q), l);
    forall p ensures Find(b, 0, p) == if p == q + [l] then |a| else Find(a, 0, p) {
      ChildFind(a, q, l, p);
    }
    forall p ensures ValuesAt(b, p) == ValuesFor(added, p) {
      assert ValuesAt(a, p) == ValuesFor(added, p);
    }
  }

  // ---------------------------------------------------------------------------------------------
  // A new value
  // ---------------------------------------------------------------------------------------------

  function WithValue(a: Arena, cur: nat, v: int): Arena
    requires cur < |a|
  {
    a[cur := a[cur].(values := a[cur].values + [v])]
  }

  lemma {:induction false} ValueFind(a: Arena, cur: nat, v: int, i: nat, p: seq<string>)
    requires Closed(a) && cur < |a| && i < |a| && Closed(WithValue(a, cur, v))
    ensures Find(WithValue(a, cur, v), i, p) == Find(a, i, p)
    decreases |p|
  {
    if p != [] && p[0] in a[i].sub {
      ValueFind(a, cur, v, a[i].sub[p[0]], p[1..]);
    }
  }

  lemma ValueRepresents(a: Arena, pattern: string, v: int, added: Added)
    requires Represents(a, added) && Find(a, 0, Labels(pattern)) >= 0
    ensures Represents(WithValue(a, Find(a, 0, Labels(pattern)), v), added + [(pattern, v)])
  {
    var q := Labels(pattern);
    var cur := Find(a, 0, q);
    var b := WithValue(a, cur, v);
    var more := added + [(pattern, v)];
    assert Closed(b);
    forall p ensures Find(b, 0, p) == Find(a, 0, p) {
      ValueFind(a, cur, v, 0, p);
    }
    assert more[..|more| - 1] == added;
    forall p ensures ValuesAt(b, p) == ValuesFor(more, p) {
      assert ValuesAt(a, p) == ValuesFor(added, p);
      assert Find(a, 0, p) == cur <==> p == q;
    }
  }

  // ---------------------------------------------------------------------------------------------
  // DomainMatcherGroup
  // ---------------------------------------------------------------------------------------------

  class DomainMatcherGroup {
    /** Empty until the first Add creates the root. */
    var nodes: Arena
    ghost var added: Added

    constructor ()
      ensures Valid() && added == []
    {
      nodes, added := [], [];
    }

    ghost predicate Valid()
      reads this
    {
      if nodes == [] then added == [] else Represents(nodes, added)
    }

    /** One label down, along an existing child or a new one. */
    static method Descend(a: Arena, current: nat, part: string, ghost added: Added, ghost path: seq<string>)
      returns (b: Arena, next: nat)
      requires Represents(a, added) && Find(a, 0, path) == current
      ensures Represents(b, added) && Find(b, 0, path + [part]) == next < |b|
    {
      FindSnoc(a, 0, path, part);
      if part !in a[current].sub {
        ChildRepresents(a, path, part, added);
        return WithChild(a, current, part), |a|;
      }
      return a, a[current].sub[part];
    }

    /** Walks down the labels from right to left, creating what is missing. */
    method Add(domain: string, value: int)
      requires Valid()
      modifies this
      ensures Valid() && added == old(added) + [(domain, value)]
    {
      if |nodes| == 0 {
        RootRepresents();
        nodes := [NEW_NODE];
      }
      var parts := Labels(domain);
      var current := 0;
      assert parts[..0] == [];
      for i := 0 to |parts|
        invariant nodes != [] && Represents(nodes, added) && added == old(added)
        invariant 0 <= current < |nodes| && Find(nodes, 0, parts[..i]) == current
      {
        assert parts[..i + 1] == parts[..i] + [parts[i]];
        nodes, current := Descend(nodes, current, parts[i], added, parts[..i]);
      }
      assert parts[..|parts|] == parts;
      ValueRepresents(nodes, domain, value, added);
      nodes := WithValue(nodes, current, value);
      added := added + [(domain, value)];
    }

    /**
     * The values of all added patterns that match, longest pattern first and in the order of
     * addition within one pattern. The empty domain matches nothing.
     */
    method Match(domain: string) returns (result: seq<int>)
      requires Valid()
      ensures domain == "" ==> result == []
      ensures domain != "" ==> result == Expected(added, domain, |domain|)
    {
      SuffixesAreExpected(added, domain, 0);
      if domain == "" {
        return [];
      }
      if |nodes| == 0 {
        NothingAdded(domain, 0);
        return [];
      }
      var matches := Walk(domain);
      result := JoinBackwards(matches);
    }

    /** Follows the labels of the domain as far as they go and collects the values on the way. */
    method Walk(domain: string) returns (matches: seq<seq<int>>)
      requires nodes != [] && Represents(nodes, added)
      ensures Backwards(matches) == FromSuffixes(added, domain, 0)
    {
      matches := [];
      var idx, current := |domain|, 0;
      while idx != -1
        invariant -1 <= idx <= |domain| && (0 <= idx < |domain| ==> domain[idx] == '.')
        invariant 0 <= current < |nodes| && Find(nodes, 0, PathOf(domain, idx + 1)) == current
        invariant Backwards(matches) == FromSuffixes(added, domain, idx + 1)
        decreases idx + 1
      {
        var nidx := LastDot(domain, idx);
        LastDotIsADot(domain, idx);
        var part := domain[nidx + 1..idx];
        PathStep(domain, idx, nidx);
        FindSnoc(nodes, 0, PathOf(domain, idx + 1), part);
        if part !in nodes[current].sub {
          DeadEnd(nodes, added, domain, idx, nidx);
          return;
        }
        current := nodes[current].sub[part];
        SuffixStep(nodes, added, domain, idx, nidx);
        idx := nidx;
        BackwardsSnoc(matches, nodes[current].values);
        if |nodes[current].values| > 0 {
          matches := matches + [nodes[current].values];
        }
      }
    }

    /** The subdomain that matches further ranks higher. */
    static method JoinBackwards(matches: seq<seq<int>>) returns (result: seq<int>)
      ensures result == Backwards(matches)
    {
      result := [];
      var i := |matches|;
      assert matches[..i] == matches;
      while i > 0
        invariant 0 <= i <= |matches|
        invariant result + Backwards(matches[..i]) == Backwards(matches)
      {
        i := i - 1;
        assert matches[..i + 1] == matches[..i] + [matches[i]];
        BackwardsSnoc(matches[..i], matches[i]);
        Bytes.Assoc(result, matches[i], Backwards(matches[..i]));
        result := result + matches[i];
      }
      assert result + [] == result;
    }
  }

  /** The lists one after the other, the last one first. */
  function Backwards(ms: seq<seq<int>>): seq<int> {
    if ms == [] then [] else ms[|ms| - 1] + Backwards(ms[..|ms| - 1])
  }

  lemma BackwardsSnoc(ms: seq<seq<int>>, m: seq<int>)
    ensures Backwards(ms + [m]) == m + Backwards(ms)
    ensures m == [] ==> m + Backwards(ms) == Backwards(ms)
  {
    assert (ms + [m])[..|ms|] == ms;
  }

  lemma {:induction false} NothingAdded(domain: string, i: int)
    requires 0 <= i <= |domain| + 1
    ensures FromSuffixes([], domain, i) == []
    decreases |domain| + 1 - i
  {
    if i <= |domain| {
      NothingAdded(domain, i + 1);
    }
  }

  /** The path of the suffix from position start on; none beyond the end. */
  ghost function PathOf(s: string, start: int): seq<string>
    requires 0 <= start <= |s| + 1
  {
    if start > |s| then [] else Labels(s[start..])
  }

  lemma {:induction false} PlainSlice(s: string, idx: int, n: int, t: string, k: int)
    requires 0 <= idx <= |s| && n == LastDot(s, idx) && t == s[n + 1..idx] && 0 <= k <= |t|
    ensures LastDot(t, k) == -1
    decreases k
  {
    if k > 0 {
      assert t[k - 1] == s[n + k];
      NoDotBehind(s, idx, n + k);
      PlainSlice(s, idx, n, t, k - 1);
    }
  }

  /** What lies between two neighbouring dots is a single label. */
  lemma OneLabel(s: string, idx: int, n: int, t: string)
    requires 0 <= idx <= |s| && n == LastDot(s, idx) && t == s[n + 1..idx]
    ensures Labels(t) == [t]
  {
    PlainSlice(s, idx, n, t, |t|);
    PlainLabels(t);
  }

  lemma CutAtDot(s: string, i: int, k: int)
    requires 0 <= i <= k < |s| && s[k] == '.'
    ensures s[i..] == s[i..k] + "." + s[k + 1..]
  {
    assert s[i..] == s[i..k] + [s[k]] + s[k + 1..];
  }

  /** The labels of a suffix that starts left of a dot. */
  lemma LabelsAtDot(s: string, i: int, k: int)
    requires 0 <= i <= k < |s| && s[k] == '.'
    ensures Labels(s[i..]) == Labels(s[k + 1..]) + Labels(s[i..k])
  {
    CutAtDot(s, i, k);
    LabelsConcat(s[i..k], s[k + 1..]);
  }

  /** The next label to the left extends the path. */
  lemma PathStep(s: string, idx: int, n: int)
    requires 0 <= idx <= |s| && n == LastDot(s, idx) && (idx < |s| ==> s[idx] == '.')
    ensures Labels(s[n + 1..]) == PathOf(s, idx + 1) + [s[n + 1..idx]]
  {
    OneLabel(s, idx, n, s[n + 1..idx]);
    if idx < |s| {
      LabelsAtDot(s, n + 1, idx);
    } else {
      assert s[n + 1..idx] == s[n + 1..];
      assert PathOf(s, idx + 1) == [];
    }
  }

  lemma NoBoundary(s: string, idx: int, k: int)
    requires 0 <= idx <= |s| && LastDot(s, idx) + 1 < k <= idx
    ensures !Boundary(s, k)
  {
    NoDotBehind(s, idx, k - 1);
  }

  /** Values found at a node are the values of the suffix it stands for. */
  lemma NodeValues(a: Arena, added: Added, t: string)
    requires Represents(a, added)
    ensures ValuesAt(a, Labels(t)) == ValuesOf(added, t)
  {
    ValuesForLabels(added, t);
  }

  /** No candidate starts inside a label. */
  lemma SkipLabel(added: Added, s: string, idx: int, n: int)
    requires 0 <= idx <= |s| && n == LastDot(s, idx)
    ensures FromSuffixes(added, s, n + 2) == FromSuffixes(added, s, idx + 1)
  {
    forall k | n + 2 <= k < idx + 1 ensures !Boundary(s, k) {
      NoBoundary(s, idx, k);
    }
    SkipSuffixes(added, s, n + 2, idx + 1);
  }

  lemma SuffixStep(a: Arena, added: Added, s: string, idx: int, n: int)
    requires Represents(a, added)
    requires 0 <= idx <= |s| && n == LastDot(s, idx)
    ensures FromSuffixes(added, s, n + 1) == ValuesAt(a, Labels(s[n + 1..])) + FromSuffixes(added, s, idx + 1)
  {
    NodeValues(a, added, s[n + 1..]);
    LastDotIsADot(s, idx);
    SkipLabel(added, s, idx, n);
    assert Boundary(s, n + 1);
  }

  /** Without the label in front of a dot there is no value for any suffix further left. */
  lemma NoValue(a: Arena, added: Added, s: string, k: int, n: int)
    requires Represents(a, added) && 0 <= k <= n < |s| && s[n] == '.'
    requires Find(a, 0, Labels(s[n + 1..])) < 0
    ensures ValuesOf(added, s[k..]) == []
  {
    LabelsAtDot(s, k, n);
    LostForGood(a, 0, Labels(s[n + 1..]), Labels(s[k..n]));
    NodeValues(a, added, s[k..]);
  }

  /** When a label is missing, no longer suffix has any value. */
  lemma DeadEnd(a: Arena, added: Added, s: string, idx: int, n: int)
    requires Represents(a, added)
    requires 0 <= idx <= |s| && n == LastDot(s, idx)
    requires Find(a, 0, Labels(s[n + 1..])) < 0
    ensures FromSuffixes(added, s, 0) == FromSuffixes(added, s, idx + 1)
  {
    forall k | 0 <= k < idx + 1 ensures !Boundary(s, k) || ValuesOf(added, s[k..]) == [] {
      if k <= n {
        LastDotIsADot(s, idx);
        NoValue(a, added, s, k, n);
      } else if k == n + 1 {
        NodeValues(a, added, s[k..]);
      } else {
        NoBoundary(s, idx, k);
      }
    }
    SkipSuffixes(added, s, 0, idx + 1);
  }

  lemma RootRepresents()
    ensures Represents([NEW_NODE], [])
  {
    var a := [NEW_NODE];
    forall p ensures Find(a, 0, p) == if p == [] then 0 else -1 {}
  }

  // ---------------------------------------------------------------------------------------------
  // What is expected
  // ---------------------------------------------------------------------------------------------

  lemma {:induction false} ByLengthHolds(added: Added, domain: string, len: int, v: int)
    ensures v in ByLength(added, domain, len) <==>
            exists i :: 0 <= i < |added| && |added[i].0| == len && Matches(added[i].0, domain) && added[i].1 == v
    decreases |added|
  {
    if added != [] {
      ByLengthHolds(added[..|added| - 1], domain, len, v);
    }
  }

  /** Among the values expected are those of the patterns that match, and no others. */
  lemma {:induction false} ExpectedHolds(added: Added, domain: string, len: int, v: int)
    ensures v in Expected(added, domain, len) <==>
            exists i :: 0 <= i < |added| && |added[i].0| <= len && Matches(added[i].0, domain) && added[i].1 == v
    decreases len + 1
  {
    if len >= 0 {
      ByLengthHolds(added, domain, len, v);
      ExpectedHolds(added, domain, len - 1, v);
    }
  }

  /** Nothing is expected below the shortest pattern. */
  lemma {:induction false} NoneShorter(added: Added, domain: string, len: int)
    requires forall i :: 0 <= i < |added| ==> |added[i].0| > len
    ensures Expected(added, domain, len) == []
    decreases len + 1
  {
    if len >= 0 {
      NoneOfLength(added, domain, len);
      NoneShorter(added, domain, len - 1);
    }
  }

  lemma {:induction false} NoneOfLength(added: Added, domain: string, len: int)
    requires forall i :: 0 <= i < |added| ==> |added[i].0| != len
    ensures ByLength(added, domain, len) == []
    decreases |added|
  {
    if added != [] {
      NoneOfLength(added[..|added| - 1], domain, len);
    }
  }

  /** Lengths that no pattern has contribute nothing. */
  lemma {:induction false} SkipLengths(added: Added, domain: string, from: int, to: int)
    requires to <= from && forall i :: 0 <= i < |added| ==> !(to < |added[i].0| <= from)
    ensures Expected(added, domain, from) == Expected(added, domain, to)
    decreases from - to
  {
    if to < from {
      if from >= 0 {
        NoneOfLength(added, domain, from);
        assert [] + Expected(added, domain, from - 1) == Expected(added, domain, from - 1);
      }
      SkipLengths(added, domain, from - 1, to);
    }
  }

  lemma TwoByLength(p: string, v: int, q: string, w: int, domain: string, len: int)
    requires Matches(p, domain) && Matches(q, domain)
    ensures ByLength([(p, v), (q, w)], domain, len) ==
            (if |p| == len then [v] else []) + (if |q| == len then [w] else [])
  {
    var both, one := [(p, v), (q, w)], [(p, v)];
    assert both[..1] == one && |one[..0]| == 0;
    assert ByLength(one[..0], domain, len) == [];
    assert [] + [v] == [v] && [] + [w] == [w];
  }

  /** The values down from length n, when the next length of a pattern is m. */
  lemma Downwards(added: Added, domain: string, n: int, m: nat)
    requires m <= n && forall i :: 0 <= i < |added| ==> !(m < |added[i].0| <= n)
    ensures Expected(added, domain, n) == ByLength(added, domain, m) + Expected(added, domain, m - 1)
  {
    SkipLengths(added, domain, n, m);
  }

  /** Patterns of two lengths. */
  lemma TwoLengths(added: Added, domain: string, long: nat, short: nat, a: seq<int>, b: seq<int>)
    requires short < long <= |domain| && forall i :: 0 <= i < |added| ==> |added[i].0| == long || |added[i].0| == short
    requires ByLength(added, domain, long) == a && ByLength(added, domain, short) == b
    ensures Expected(added, domain, |domain|) == a + b
  {
    Downwards(added, domain, |domain|, long);
    Downwards(added, domain, long - 1, short);
    NoneShorter(added, domain, short - 1);
    assert b + [] == b;
  }

  /** Patterns of one length. */
  lemma OneLength(added: Added, domain: string, n: nat, a: seq<int>)
    requires n <= |domain| && forall i :: 0 <= i < |added| ==> |added[i].0| == n
    requires ByLength(added, domain, n) == a
    ensures Expected(added, domain, |domain|) == a
  {
    Downwards(added, domain, |domain|, n);
    NoneShorter(added, domain, n - 1);
    assert a + [] == a;
  }

  /** Of two patterns that match, the longer ranks first; of two of one length, the one added first. */
  lemma LongerFirst(p: string, v: int, q: string, w: int, domain: string, both: Added)
    requires Matches(p, domain) && Matches(q, domain) && both == [(p, v), (q, w)]
    ensures Expected(both, domain, |domain|) == if |p| < |q| then [w, v] else [v, w]
  {
    TwoByLength(p, v, q, w, domain, |p|);
    TwoByLength(p, v, q, w, domain, |q|);
    if |p| < |q| {
      TwoLengths(both, domain, |q|, |p|, [w], [v]);
    } else if |q| < |p| {
      TwoLengths(both, domain, |p|, |q|, [v], [w]);
    } else {
      OneLength(both, domain, |p|, [v, w]);
    }
  }
}
