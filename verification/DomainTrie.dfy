/**
 The reverse-domain trie against a flat table of patterns.

 A domain or pattern is its sequence of labels. The trie is walked from the last label to the first, so a
 pattern is stored under the reversed path of its labels, with the label "*" as the step `Star`.
 */
module DomainTrie {
  import opened Prelude

  type Label = string

  datatype Step = Lit(text: Label) | Star

  type Path = seq<Step>

  function StepOf(l: Label): Step { if l == "*" then Star else Lit(l) }

  /** The path a pattern is stored under: its labels from last to first. */
  function PathOf(labels: seq<Label>): Path {
    if labels == [] then [] else PathOf(labels[1..]) + [StepOf(labels[0])]
  }

  lemma PathStep(labels: seq<Label>, i: nat)
    requires i < |labels|
    ensures PathOf(labels[i..]) == PathOf(labels[i + 1..]) + [StepOf(labels[i])]
  {
    assert labels[i..][1..] == labels[i + 1..];
  }

  function Reverse(labels: seq<Label>): seq<Label> {
    if labels == [] then [] else Reverse(labels[1..]) + [labels[0]]
  }

  // ---- What a lookup should find ----

  /** A pattern path matches a reversed domain: `*` takes one label, a final `*` takes one or more. */
  predicate Matches(p: Path, domain: seq<Label>) {
    if p == [] then domain == []
    else
      domain != [] &&
      match p[0]
      case Lit(l) => l == domain[0] && Matches(p[1..], domain[1..])
      case Star => Matches(p[1..], domain[1..]) || |p| == 1
  }

  /** The more specific of two patterns: at the first difference a literal beats `*`, and `*` beats the end. */
  predicate MoreSpecific(p: Path, q: Path) {
    if p == [] then false
    else if q == [] then true
    else if p[0] == q[0] then MoreSpecific(p[1..], q[1..])
    else p[0].Lit? && q[0].Star?
  }

  /** `p` is the most specific of the table's patterns below `pre` that match. */
  ghost predicate IsBest<V>(table: map<Path, V>, pre: Path, domain: seq<Label>, p: Path) {
    && Matches(p, domain) && pre + p in table
    && forall q | Matches(q, domain) && pre + q in table :: q == p || MoreSpecific(p, q)
  }

  /** The search order of `matchDomainNode`, on a table instead of nodes: the pattern it settles on. */
  function Find<V>(table: map<Path, V>, pre: Path, domain: seq<Label>): Option<Path>
    decreases |domain|
  {
    if domain == [] then (if pre in table then Some([]) else None)
    else
      match Find(table, pre + [Lit(domain[0])], domain[1..])
      case Some(q) => Some([Lit(domain[0])] + q)
      case None =>
        match Find(table, pre + [Star], domain[1..])
        case Some(q) => Some([Star] + q)
        case None => if pre + [Star] in table then Some([Star]) else None
  }

  lemma Extend(pre: Path, st: Step, q: Path)
    ensures pre + ([st] + q) == (pre + [st]) + q
    ensures ([st] + q)[0] == st && ([st] + q)[1..] == q
  {
  }

  /** The search finds a pattern exactly when one matches, and then it is the most specific one. */
  lemma {:induction false} FindIsBest<V>(table: map<Path, V>, pre: Path, domain: seq<Label>)
    ensures Find(table, pre, domain).Some? ==> IsBest(table, pre, domain, Find(table, pre, domain).value)
    ensures Find(table, pre, domain).None? ==> forall q | Matches(q, domain) :: pre + q !in table
    decreases |domain|
  {
    if domain == [] {
      assert pre + [] == pre;
    } else {
      var l := Lit(domain[0]);
      FindIsBest(table, pre + [l], domain[1..]);
      FindIsBest(table, pre + [Star], domain[1..]);
      Extend(pre, Star, []);
      forall q: Path | Matches(q, domain) && pre + q in table
        ensures Find(table, pre, domain).Some?
        ensures q == Find(table, pre, domain).value || MoreSpecific(Find(table, pre, domain).value, q)
      {
        assert q == [q[0]] + q[1..];
        Extend(pre, q[0], q[1..]);
        if q[0].Lit? {
          assert Find(table, pre + [l], domain[1..]).Some?;
        } else if Matches(q[1..], domain[1..]) {
          assert Find(table, pre + [Star], domain[1..]).Some?;
        } else {
          assert q == [Star];
        }
      }
      if Find(table, pre, domain).Some? {
        var p := Find(table, pre, domain).value;
        Extend(pre, p[0], p[1..]);
        assert p == [p[0]] + p[1..];
      }
    }
  }

  /** Two different patterns that match the same domain are always comparable, in one direction only. */
  lemma {:induction false} SpecificityIsTotal(p: Path, q: Path, domain: seq<Label>)
    requires Matches(p, domain) && Matches(q, domain) && p != q
    ensures MoreSpecific(p, q) != MoreSpecific(q, p)
  {
    if p != [] && q != [] && p[0] == q[0] {
      assert p == [p[0]] + p[1..] && q == [q[0]] + q[1..];
      if Matches(p[1..], domain[1..]) && Matches(q[1..], domain[1..]) {
        SpecificityIsTotal(p[1..], q[1..], domain[1..]);
      }
    }
  }

  function Lookup<K, T>(m: map<K, T>, k: K): Option<T> { if k in m then Some(m[k]) else None }

  /** The value the search answers with. */
  function FindValue<V>(table: map<Path, V>, pre: Path, domain: seq<Label>): Option<V> {
    match Find(table, pre, domain)
    case None => None
    case Some(q) => Lookup(table, pre + q)
  }

  lemma FindValueStep<V>(table: map<Path, V>, pre: Path, domain: seq<Label>)
    requires domain != []
    ensures FindValue(table, pre, domain) ==
            var lit := FindValue(table, pre + [Lit(domain[0])], domain[1..]);
            var star := FindValue(table, pre + [Star], domain[1..]);
            if lit.Some? then lit else if star.Some? then star else Lookup(table, pre + [Star])
  {
    FindIsBest(table, pre + [Lit(domain[0])], domain[1..]);
    FindIsBest(table, pre + [Star], domain[1..]);
    var p := Find(table, pre, domain);
    if p.Some? {
      assert p.value == [p.value[0]] + p.value[1..];
      Extend(pre, p.value[0], p.value[1..]);
    }
  }

  // ---- The linked nodes ----

  class Node<V> {
    var children: map<Label, Node<V>>
    var wildcard: Node?<V>
    var value: Option<V>

    constructor ()
      ensures children == map[] && wildcard == null && value == None
    {
      children, wildcard, value := map[], null, None;
    }

    function Child(st: Step): Node?<V>
      reads this
    {
      match st
      case Lit(l) => if l in children then children[l] else null
      case Star => wildcard
    }

    method SetChild(st: Step, node: Node<V>)
      modifies this`children, this`wildcard
      ensures forall st' :: Child(st') == if st' == st then node else old(Child(st'))
    {
      match st {
        case Lit(l) => children := children[l := node];
        case Star => wildcard := node;
      }
    }
  }

  lemma AppendInjective(p: Path, st: Step, q: Path, st': Step)
    ensures p + [st] == q + [st'] <==> p == q && st == st'
    ensures (p + [st])[..|p + [st]| - 1] == p
  {
    if p + [st] == q + [st'] {
      assert p == (p + [st])[..|p|] && q == (q + [st'])[..|q|];
      assert (p + [st])[|p|] == (q + [st'])[|q|];
    }
  }

  ghost predicate ParentIn<T>(at: map<Path, T>, p: Path) { p == [] || p[..|p| - 1] in at }

  /** With every path its parent. */
  ghost predicate Rooted<T>(at: map<Path, T>) { forall p {:trigger ParentIn(at, p)} | p in at :: ParentIn(at, p) }

  /** Such a set of paths stays so with one more child, which has no children itself. */
  lemma PathsGrow<T>(at: map<Path, T>, path: Path, st: Step, x: T)
    requires Rooted(at) && path in at && path + [st] !in at
    ensures Rooted(at[path + [st] := x])
    ensures forall st' :: path + [st] + [st'] !in at[path + [st] := x]
  {
    var made := path + [st];
    var more := at[made := x];
    AppendInjective(path, st, [], Star);
    forall p | p in more ensures ParentIn(more, p) { assert p in at ==> ParentIn(at, p); }
    forall st' ensures made + [st'] !in more {
      AppendInjective(made, st', [], Star);
      assert made + [st'] in at ==> ParentIn(at, made + [st']);
    }
  }

  /** The trie: `at` names every node of `repr` by the path that leads to it, `table` is what has been stored. */
  class Trie<V> {
    var root: Node<V>
    ghost var repr: set<Node<V>>
    ghost var at: map<Path, Node<V>>
    ghost var table: map<Path, V>

    ghost predicate PathsOk()
      reads this
    {
      && [] in at && at[[]] == root && table.Keys <= at.Keys && (forall p | p in at :: at[p] in repr)
      && (forall p, q | p in at && q in at && at[p] == at[q] :: p == q)
      && Rooted(at)
    }

    ghost predicate LinkOk(p: Path, st: Step)
      requires p in at
      reads this, at[p]
    {
      at[p].Child(st) == if p + [st] in at then at[p + [st]] else null
    }

    ghost predicate Valid()
      reads this, repr
    {
      && PathsOk()
      && (forall p, st | p in at :: LinkOk(p, st))
      && (forall p | p in at :: at[p].value == Lookup(table, p))
    }

    constructor ()
      ensures Valid() && table == map[] && fresh(repr)
    {
      var node := new Node<V>();
      root := node;
      repr, at := {node}, map[[] := node];
      table := map[];
    }

    /** Hang a new node under `curr`. */
    method Attach(curr: Node<V>, st: Step, ghost path: Path) returns (next: Node<V>)
      requires Valid() && path in at && at[path] == curr && path + [st] !in at
      modifies this`repr, this`at, curr`children, curr`wildcard
      ensures Valid() && fresh(next) && repr == old(repr) + {next} && at == old(at)[path + [st] := next]
    {
      next := new Node<V>();
      PathsGrow(at, path, st, next);
      curr.SetChild(st, next);
      ghost var was, made := at, path + [st];
      repr, at := repr + {next}, was[made := next];
      forall p, st' | p in at ensures LinkOk(p, st') {
        AppendInjective(p, st', path, st);
        if p == made {
          assert at[p].Child(st') == null && p + [st'] !in at;
        } else {
          assert was[p] in old(repr) && (was[p] == curr <==> p == path);
          assert old(LinkOk(p, st'));
        }
      }
    }

    /** The node one step below `curr`, made if there is none. */
    method Descend(curr: Node<V>, st: Step, ghost path: Path) returns (next: Node<V>)
      requires Valid() && path in at && at[path] == curr
      modifies this`repr, this`at, curr`children, curr`wildcard
      ensures Valid() && fresh(repr - old(repr)) && path + [st] in at && at[path + [st]] == next
    {
      assert LinkOk(path, st);
      var child := curr.Child(st);
      if child == null {
        next := Attach(curr, st, path);
      } else {
        next := child;
      }
    }

    method Store(curr: Node<V>, val: V, ghost path: Path)
      requires Valid() && path in at && at[path] == curr
      modifies this`table, curr`value
      ensures Valid() && table == old(table)[path := val]
    {
      curr.value := Some(val);
      table := table[path := val];
      assert forall p, st | p in at :: old(LinkOk(p, st)) ==> LinkOk(p, st);
    }

    /** From the root to the node for a pattern, made where missing. */
    method Reach(labels: seq<Label>) returns (curr: Node<V>, ghost path: Path)
      requires Valid()
      modifies this`repr, this`at, repr
      ensures Valid() && fresh(repr - old(repr))
      ensures path == PathOf(labels) && path in at && at[path] == curr
    {
      var i := |labels|;
      curr, path := root, [];
      while i > 0
        invariant 0 <= i <= |labels| && Valid() && fresh(repr - old(repr))
        invariant path == PathOf(labels[i..]) && path in at && at[path] == curr
      {
        i := i - 1;
        PathStep(labels, i);
        curr := Descend(curr, StepOf(labels[i]), path);
        path := path + [StepOf(labels[i])];
      }
      assert labels[0..] == labels;
    }

    /** Registers a pattern; a later value for the same pattern replaces the earlier one. */
    method Insert(labels: seq<Label>, val: V)
      requires Valid()
      modifies this, repr
      ensures Valid() && root == old(root) && fresh(repr - old(repr))
      ensures table == old(table)[PathOf(labels) := val]
    {
      var curr;
      ghost var path;
      curr, path := Reach(labels);
      Store(curr, val, path);
    }

    lemma {:induction false} AncestorsExist(p: Path, q: Path)
      requires PathsOk() && p + q in at
      ensures p in at
      decreases |q|
    {
      if q == [] {
        assert p + q == p;
      } else {
        assert ParentIn(at, p + q);
        assert (p + q)[..|p + q| - 1] == p + q[..|q| - 1];
        AncestorsExist(p, q[..|q| - 1]);
      }
    }

    /** Where there is no node, nothing is stored further down. */
    lemma NothingBelow(pre: Path, domain: seq<Label>)
      requires PathsOk() && pre !in at
      ensures Find(table, pre, domain) == None
    {
      FindIsBest(table, pre, domain);
      if Find(table, pre, domain).Some? {
        AncestorsExist(pre, Find(table, pre, domain).value);
      }
    }

    /** The recursive search over nodes agrees with the search over the table. */
    method MatchNode(curr: Node<V>, labels: seq<Label>, idx: nat, ghost path: Path) returns (r: Option<V>)
      requires Valid() && path in at && at[path] == curr && idx <= |labels|
      ensures r == FindValue(table, path, labels[idx..])
      decreases |labels| - idx
    {
      if idx == |labels| {
        assert path + [] == path;
        return curr.value;
      }
      ghost var rest := labels[idx + 1..];
      ghost var lit := path + [Lit(labels[idx])];
      ghost var star := path + [Star];
      assert labels[idx..][1..] == rest;
      assert LinkOk(path, Lit(labels[idx])) && LinkOk(path, Star);
      FindValueStep(table, path, labels[idx..]);
      if labels[idx] in curr.children {
        r := MatchNode(curr.children[labels[idx]], labels, idx + 1, lit);
        if r.Some? {
          return;
        }
      } else {
        NothingBelow(lit, rest);
      }
      if curr.wildcard != null {
        r := MatchNode(curr.wildcard, labels, idx + 1, star);
        if r.Some? {
          return;
        }
        return curr.wildcard.value;
      }
      NothingBelow(star, rest);
      return None;
    }

    method Match(labels: seq<Label>) returns (r: Option<V>)
      requires Valid()
      ensures r == FindValue(table, [], Reverse(labels))
    {
      r := MatchNode(root, Reverse(labels), 0, []);
      assert Reverse(labels)[0..] == Reverse(labels);
    }
  }

  // ---- Against the list of insertions ----

  datatype Entry<V> = Entry(labels: seq<Label>, val: V)

  /** The table a sequence of insertions leaves behind. */
  function TableOf<V>(log: seq<Entry<V>>): map<Path, V> {
    if log == [] then map[]
    else TableOf(log[..|log| - 1])[PathOf(log[|log| - 1].labels) := log[|log| - 1].val]
  }

  /** Entry `i` is the last one inserted for its pattern. */
  ghost predicate IsLast<V>(log: seq<Entry<V>>, i: nat)
    requires i < |log|
  {
    forall j | i < j < |log| :: PathOf(log[j].labels) != PathOf(log[i].labels)
  }

  lemma {:induction false} TableHoldsLast<V>(log: seq<Entry<V>>, p: Path)
    ensures p in TableOf(log) <==> exists i :: 0 <= i < |log| && PathOf(log[i].labels) == p
    ensures p in TableOf(log) ==>
              exists i ::
                0 <= i < |log| && PathOf(log[i].labels) == p && IsLast(log, i) && TableOf(log)[p] == log[i].val
  {
    if log != [] {
      var n := |log| - 1;
      var rest := log[..n];
      TableHoldsLast(rest, p);
      if PathOf(log[n].labels) == p {
        assert IsLast(log, n);
      } else if p in TableOf(rest) {
        var i :| 0 <= i < |rest| && PathOf(rest[i].labels) == p && IsLast(rest, i) && TableOf(rest)[p] == rest[i].val;
        assert log[i] == rest[i] && IsLast(log, i);
      }
    }
  }

  /** The entry a lookup answers from: it matches, is the last for its pattern, and no match is more specific. */
  ghost predicate Answers<V>(log: seq<Entry<V>>, domain: seq<Label>, i: nat)
    requires i < |log|
  {
    && Matches(PathOf(log[i].labels), domain) && IsLast(log, i)
    && forall j | 0 <= j < |log| && Matches(PathOf(log[j].labels), domain) ::
         PathOf(log[j].labels) == PathOf(log[i].labels) || MoreSpecific(PathOf(log[i].labels), PathOf(log[j].labels))
  }

  /** A lookup succeeds exactly when some inserted pattern matches, with the last value of the most specific one. */
  lemma LookupAgreesWithInsertions<V>(log: seq<Entry<V>>, domain: seq<Label>)
    ensures FindValue(TableOf(log), [], domain).Some?
            <==> exists i :: 0 <= i < |log| && Matches(PathOf(log[i].labels), domain)
    ensures FindValue(TableOf(log), [], domain).Some? ==>
              exists i ::
                0 <= i < |log| && Answers(log, domain, i) && FindValue(TableOf(log), [], domain).value == log[i].val
  {
    var table := TableOf(log);
    FindIsBest(table, [], domain);
    forall i | 0 <= i < |log| && Matches(PathOf(log[i].labels), domain)
      ensures [] + PathOf(log[i].labels) in table
    {
      TableHoldsLast(log, PathOf(log[i].labels));
      assert [] + PathOf(log[i].labels) == PathOf(log[i].labels);
    }
    if Find(table, [], domain).Some? {
      var p := Find(table, [], domain).value;
      assert [] + p == p;
      TableHoldsLast(log, p);
      var i :| 0 <= i < |log| && PathOf(log[i].labels) == p && IsLast(log, i) && table[p] == log[i].val;
      assert Answers(log, domain, i);
    }
  }

  // ---- On labels as they are written ----

  lemma {:induction false} ReverseAt(labels: seq<Label>, k: nat)
    ensures |Reverse(labels)| == |labels|
    ensures k < |labels| ==> Reverse(labels)[k] == labels[|labels| - 1 - k]
  {
    if labels != [] {
      ReverseAt(labels[1..], k);
    }
  }

  lemma {:induction false} PathAt(labels: seq<Label>, k: nat)
    ensures |PathOf(labels)| == |labels|
    ensures k < |labels| ==>
              var l := labels[|labels| - 1 - k]; PathOf(labels)[k] == if l == "*" then Star else Lit(l)
  {
    if labels != [] {
      PathAt(labels[1..], k);
    }
  }

  /** The k-th label from the right. */
  function FromRight(labels: seq<Label>, k: nat): Label
    requires k < |labels|
  {
    labels[|labels| - 1 - k]
  }

  /**
   A pattern covers a domain: they have the same number of labels, or the domain has more and the pattern begins with
   "*"; and from the right, label by label, the pattern has "*" or the domain's own label.
   */
  ghost predicate Covers(pattern: seq<Label>, domain: seq<Label>) {
    && (|domain| == |pattern| || (pattern != [] && pattern[0] == "*" && |domain| > |pattern|))
    && forall k: nat | k < |pattern| :: FromRight(pattern, k) == "*" || FromRight(pattern, k) == FromRight(domain, k)
  }

  /** `p` and `q` agree on `k` labels from the right, and there `p` has a label where `q` has "*" or no more. */
  ghost predicate BeatsAt(p: seq<Label>, q: seq<Label>, k: nat) {
    && k < |p| && k <= |q| && (forall i: nat | i < k :: FromRight(p, i) == FromRight(q, i))
    && (k < |q| ==> FromRight(p, k) != "*" && FromRight(q, k) == "*")
  }

  /** One pattern beats another. */
  ghost predicate Beats(p: seq<Label>, q: seq<Label>) { exists k :: BeatsAt(p, q, k) }

  /** The same in terms of paths. */
  ghost predicate PathCovers(p: Path, domain: seq<Label>) {
    && (|domain| == |p| || (p != [] && p[|p| - 1].Star? && |domain| > |p|))
    && forall k: nat | k < |p| :: p[k].Star? || p[k] == Lit(domain[k])
  }

  lemma {:induction false} MatchesIsPathCovers(p: Path, domain: seq<Label>)
    ensures Matches(p, domain) <==> PathCovers(p, domain)
  {
    if p != [] && domain != [] {
      MatchesIsPathCovers(p[1..], domain[1..]);
      assert forall k: nat | 0 < k < |p| :: p[k] == p[1..][k - 1];
      assert forall k: nat | 0 < k < |domain| :: domain[k] == domain[1..][k - 1];
      if PathCovers(p, domain) {
        assert p[0].Star? || p[0] == Lit(domain[0]);
        assert forall k: nat | k < |p| - 1 :: p[1..][k] == p[k + 1];
      }
      if PathCovers(p[1..], domain[1..]) && (p[0].Star? || p[0] == Lit(domain[0])) {
        forall k: nat | k < |p| ensures p[k].Star? || p[k] == Lit(domain[k]) {
          if k > 0 {
            assert p[1..][k - 1].Star? || p[1..][k - 1] == Lit(domain[1..][k - 1]);
          }
        }
      }
    }
  }

  lemma MatchesMeansCovers(pattern: seq<Label>, domain: seq<Label>)
    ensures Matches(PathOf(pattern), Reverse(domain)) <==> Covers(pattern, domain)
  {
    var p, d := PathOf(pattern), Reverse(domain);
    MatchesIsPathCovers(p, d);
    PathAt(pattern, 0);
    ReverseAt(domain, 0);
    if pattern != [] {
      PathAt(pattern, |pattern| - 1);
    }
    if |domain| >= |pattern| {
      forall k: nat | k < |pattern|
        ensures (p[k].Star? || p[k] == Lit(d[k]))
                <==> FromRight(pattern, k) == "*" || FromRight(pattern, k) == FromRight(domain, k)
      {
        PathAt(pattern, k);
        ReverseAt(domain, k);
      }
    }
  }

  ghost predicate PathBeatsAt(p: Path, q: Path, k: nat) {
    && k < |p| && k <= |q| && p[..k] == q[..k] && (k < |q| ==> p[k].Lit? && q[k].Star?)
  }

  lemma {:induction false} MoreSpecificIsPathBeats(p: Path, q: Path)
    ensures MoreSpecific(p, q) <==> exists k :: PathBeatsAt(p, q, k)
  {
    if p != [] && q == [] {
      assert PathBeatsAt(p, q, 0);
    } else if p != [] && p[0] == q[0] {
      MoreSpecificIsPathBeats(p[1..], q[1..]);
      if k: nat :| PathBeatsAt(p[1..], q[1..], k) {
        assert p[..k + 1] == [p[0]] + p[1..][..k] && q[..k + 1] == [q[0]] + q[1..][..k];
        assert PathBeatsAt(p, q, k + 1);
      }
      if k: nat :| PathBeatsAt(p, q, k) {
        assert k > 0;
        assert p[1..][..k - 1] == p[..k][1..] && q[1..][..k - 1] == q[..k][1..];
        assert PathBeatsAt(p[1..], q[1..], k - 1);
      }
    } else if p != [] {
      if p[0].Lit? && q[0].Star? {
        assert PathBeatsAt(p, q, 0);
      }
      forall k: nat | 0 < k <= |p| && k <= |q| ensures p[..k] != q[..k] { assert p[..k][0] != q[..k][0]; }
    }
  }

  lemma StepsAgree(p: seq<Label>, q: seq<Label>, i: nat)
    requires i < |p| && i < |q|
    ensures |PathOf(p)| == |p| && |PathOf(q)| == |q|
    ensures PathOf(p)[i] == PathOf(q)[i] <==> FromRight(p, i) == FromRight(q, i)
    ensures PathOf(p)[i].Star? <==> FromRight(p, i) == "*"
    ensures PathOf(q)[i].Star? <==> FromRight(q, i) == "*"
  {
    PathAt(p, i);
    PathAt(q, i);
  }

  lemma PathBeatsAtMeaning(p: seq<Label>, q: seq<Label>, k: nat)
    ensures PathBeatsAt(PathOf(p), PathOf(q), k) <==> BeatsAt(p, q, k)
  {
    var a, b := PathOf(p), PathOf(q);
    PathAt(p, 0);
    PathAt(q, 0);
    if k <= |p| && k <= |q| {
      forall i: nat | i < k ensures a[..k][i] == b[..k][i] <==> FromRight(p, i) == FromRight(q, i) {
        StepsAgree(p, q, i);
      }
      if forall i: nat | i < k :: FromRight(p, i) == FromRight(q, i) {
        assert a[..k] == b[..k];
      }
    }
    if k < |p| && k < |q| {
      StepsAgree(p, q, k);
    }
  }

  lemma MoreSpecificMeansBeats(p: seq<Label>, q: seq<Label>)
    ensures MoreSpecific(PathOf(p), PathOf(q)) <==> Beats(p, q)
  {
    MoreSpecificIsPathBeats(PathOf(p), PathOf(q));
    forall k ensures PathBeatsAt(PathOf(p), PathOf(q), k) <==> BeatsAt(p, q, k) { PathBeatsAtMeaning(p, q, k); }
    if Beats(p, q) {
      var k :| BeatsAt(p, q, k);
      assert PathBeatsAt(PathOf(p), PathOf(q), k);
    }
  }

  /** Different patterns have different paths. */
  lemma PathsAreInjective(p: seq<Label>, q: seq<Label>)
    ensures PathOf(p) == PathOf(q) <==> p == q
  {
    PathAt(p, 0);
    PathAt(q, 0);
    if PathOf(p) == PathOf(q) {
      forall i | 0 <= i < |p| ensures p[i] == q[i] { StepsAgree(p, q, |p| - 1 - i); }
    }
  }

  /** Entry `i` of the log decides a lookup: it covers the domain, is the last of its pattern, and beats all others. */
  ghost predicate Decides<V>(log: seq<Entry<V>>, domain: seq<Label>, i: nat)
    requires i < |log|
  {
    && Covers(log[i].labels, domain) && (forall j | i < j < |log| :: log[j].labels != log[i].labels)
    && forall j | 0 <= j < |log| && Covers(log[j].labels, domain) ::
         log[j].labels == log[i].labels || Beats(log[i].labels, log[j].labels)
  }

  lemma AnswersMeansDecides<V>(log: seq<Entry<V>>, domain: seq<Label>, i: nat)
    requires i < |log| && Answers(log, Reverse(domain), i)
    ensures Decides(log, domain, i)
  {
    MatchesMeansCovers(log[i].labels, domain);
    forall j | 0 <= j < |log|
      ensures i < j ==> log[j].labels != log[i].labels
      ensures Covers(log[j].labels, domain) ==>
                log[j].labels == log[i].labels || Beats(log[i].labels, log[j].labels)
    {
      PathsAreInjective(log[j].labels, log[i].labels);
      MatchesMeansCovers(log[j].labels, domain);
      MoreSpecificMeansBeats(log[i].labels, log[j].labels);
    }
  }

  /** A pattern without "*" that is the domain itself decides it: nothing beats it. */
  lemma LiteralPatternDecides<V>(log: seq<Entry<V>>, domain: seq<Label>, i: nat, j: nat)
    requires i < |log| && j < |log| && Decides(log, domain, i) && log[j].labels == domain && "*" !in domain
    ensures log[i].labels == domain
  {
    assert Covers(log[j].labels, domain);
    assert forall k: nat | k < |domain| :: FromRight(domain, k) in domain;
  }

  /** Insertions into a new trie, in order, and then one lookup: what a user of the trie sees. */
  method InsertAllAndMatch<V>(log: seq<Entry<V>>, domain: seq<Label>) returns (r: Option<V>)
    ensures r.Some? <==> exists i :: 0 <= i < |log| && Covers(log[i].labels, domain)
    ensures r.Some? ==> exists i :: 0 <= i < |log| && Decides(log, domain, i) && r.value == log[i].val
    ensures forall j | 0 <= j < |log| && IsLastLiteral(log, domain, j) :: r == Some(log[j].val)
  {
    var trie := new Trie<V>();
    for i := 0 to |log|
      invariant trie.Valid() && fresh(trie) && fresh(trie.repr) && trie.table == TableOf(log[..i])
    {
      trie.Insert(log[i].labels, log[i].val);
      assert log[..i + 1][..i] == log[..i];
    }
    assert log[..|log|] == log;
    r := trie.Match(domain);
    LookupOnLabels(log, domain);
    forall j | 0 <= j < |log| && IsLastLiteral(log, domain, j) ensures r == Some(log[j].val) {
      LiteralIsFound(log, domain, r, j);
    }
  }

  /** Entry `j` is the last one inserted for the domain itself, which has no "*". */
  ghost predicate IsLastLiteral<V>(log: seq<Entry<V>>, domain: seq<Label>, j: nat)
    requires j < |log|
  {
    log[j].labels == domain && "*" !in domain && forall k | j < k < |log| :: log[k].labels != domain
  }

  lemma LiteralIsFound<V>(log: seq<Entry<V>>, domain: seq<Label>, r: Option<V>, j: nat)
    requires j < |log| && IsLastLiteral(log, domain, j)
    requires r.Some? <==> exists i :: 0 <= i < |log| && Covers(log[i].labels, domain)
    requires r.Some? ==> exists i :: 0 <= i < |log| && Decides(log, domain, i) && r.value == log[i].val
    ensures r == Some(log[j].val)
  {
    assert Covers(log[j].labels, domain);
    var i :| 0 <= i < |log| && Decides(log, domain, i) && r.value == log[i].val;
    LiteralPatternDecides(log, domain, i, j);
  }

  /** The lookup in terms of labels as written. */
  lemma LookupOnLabels<V>(log: seq<Entry<V>>, domain: seq<Label>)
    ensures var r := FindValue(TableOf(log), [], Reverse(domain));
            && (r.Some? <==> exists i :: 0 <= i < |log| && Covers(log[i].labels, domain))
            && (r.Some? ==> exists i :: 0 <= i < |log| && Decides(log, domain, i) && r.value == log[i].val)
  {
    LookupAgreesWithInsertions(log, Reverse(domain));
    forall i | 0 <= i < |log|
      ensures Matches(PathOf(log[i].labels), Reverse(domain)) <==> Covers(log[i].labels, domain)
    {
      MatchesMeansCovers(log[i].labels, domain);
    }
    var r := FindValue(TableOf(log), [], Reverse(domain));
    if r.Some? {
      var i :| 0 <= i < |log| && Answers(log, Reverse(domain), i) && r.value == log[i].val;
      AnswersMeansDecides(log, domain, i);
    }
  }
}
